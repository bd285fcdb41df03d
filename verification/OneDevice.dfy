/**
 The device in MODE_ONE: rmem_request_one, which keeps one pending transfer and posts it when the next
 segment cannot be merged into it.

 The code does not run alone.  `machine` is the state of the protocol that everybody sees, and `recs` and
 `pool` are its records and free list.  Every effect of the code on shared state is a step of that
 state machine, made in the order of the code, and after each of them `Yield` lets the handler and
 other submitters take any steps they can: `env` says which, and nothing is assumed about it except that
 others leave this drain its requests (`claimed`) and the records it needs (`reserve`).
 */
module OneDevice {
  import opened Transfers
  import opened BlockLayer
  import opened Batching
  import opened RingPool
  import opened OneProtocol
  import OneProgress
  import Verbs

  /** A state reached from an initial one, folded away. */
  ghost predicate Reached(init: State, steps: seq<Step>, w: State) {
    forall n: int {:trigger Key(n)} :: Key(n) ==> Initial(init) && Run(init, steps) == Some(w)
  }

  lemma {:induction false} ReachedInv(init: State, steps: seq<Step>, w: State)
    requires Reached(init, steps, w)
    ensures Inv(w)
  {
    assert Key(0);
    RunKeepsInv(init, steps);
  }

  lemma {:induction false} ReachedStep(init: State, steps: seq<Step>, w: State, st: Step)
    requires Reached(init, steps, w) && Enabled(w, st)
    ensures Reached(init, steps + [st], Apply(w, st))
  {
    assert Key(0);
    assert (steps + [st])[..|steps + [st]| - 1] == steps;
  }

  lemma {:induction false} ReachedRuns(init: State, steps: seq<Step>, w: State)
    requires Reached(init, steps, w)
    ensures Initial(init) && Run(init, steps) == Some(w)
  {
    assert Key(0);
  }

  /** A submission but for what the handler does to it. */
  function View(u: Submission): Submission {
    u.(handled := 0, ended := false)
  }

  /** A step that is not one of submission i and fetches none of the claimed requests. */
  predicate Theirs(st: Step, i: nat, claimed: set<nat>) {
    match st
    case Fetch(req, _) => req !in claimed
    case Segment(j) => j != i
    case Flush(j) => j != i
    case Mark(j) => j != i
    case PostLast(j) => j != i
    case _ => true
  }

  /** What has been submitted stays submitted, and nobody else fetched a claimed request. */
  ghost predicate Stays(w: State, v: State, claimed: set<nat>) {
    && |w.subs| <= |v.subs|
    && (forall j :: 0 <= j < |w.subs| && w.subs[j].pc.Done? ==> View(v.subs[j]) == View(w.subs[j]))
    && (forall r :: r in w.fetchedAs ==> r in v.fetchedAs && v.fetchedAs[r] == w.fetchedAs[r])
    && (forall r :: r in claimed && r in v.fetchedAs ==> r in w.fetchedAs)
  }

  /** The same, and submission i is where it was. */
  ghost predicate Kept(w: State, v: State, i: nat, claimed: set<nat>) {
    Stays(w, v, claimed) && (i < |w.subs| ==> i < |v.subs| && View(v.subs[i]) == View(w.subs[i]))
  }

  lemma {:induction false} StepStays(init: State, steps: seq<Step>, w: State, st: Step, claimed: set<nat>)
    requires Reached(init, steps, w) && Enabled(w, st) && (st.Fetch? ==> st.req !in claimed)
    ensures Stays(w, Apply(w, st), claimed)
  {
    ReachedInv(init, steps, w);
  }

  lemma {:induction false} StepKept(init: State, steps: seq<Step>, w: State, st: Step, i: nat, claimed: set<nat>)
    requires Reached(init, steps, w) && Enabled(w, st) && Theirs(st, i, claimed)
    ensures Kept(w, Apply(w, st), i, claimed)
  {
    ReachedInv(init, steps, w);
    StepStays(init, steps, w, st, claimed);
  }

  lemma StaysTrans(a: State, b: State, c: State, claimed: set<nat>)
    requires Stays(a, b, claimed) && Stays(b, c, claimed)
    ensures Stays(a, c, claimed)
  {
  }

  lemma SameRecordCount(w: State, st: Step)
    requires Enabled(w, st)
    ensures |Apply(w, st).recs| == |w.recs|
  {
  }

  lemma {:induction false} EndHasRoom(init: State, steps: seq<Step>, w: State)
    requires Reached(init, steps, w) && w.handler.Ending?
    ensures |w.free| < |w.recs|
  {
    ReachedInv(init, steps, w);
    assert SubOk(w.subs[w.handler.sub], w.recs);
    MissingOne(w.free, |w.recs|, w.handler.rec);
  }

  class Device {
    const ctx: Verbs.Context
    const recs: array<Record>
    const pool: Ring<nat>
    var sendq: seq<Verbs.Wire>
    var failed: seq<nat>
    var machine: State
    var env: seq<seq<Step>>
    var mine: nat
    var reserve: nat
    var claimed: set<nat>
    ghost const init: State
    ghost var steps: seq<Step>

    constructor (ctx: Verbs.Context, recs: array<Record>, pool: Ring<nat>, start: State, env: seq<seq<Step>>)
      requires Initial(start) && start.recs == recs[..] && pool.Valid() && start.free == pool.Contents()
      requires |pool.original| == recs.Length
      ensures this.ctx == ctx && this.recs == recs && this.pool == pool && sendq == [] && failed == []
      ensures machine == start && this.env == env && Synced() && reserve == 0
    {
      this.ctx, this.recs, this.pool, this.env := ctx, recs, pool, env;
      sendq, failed, machine, mine, reserve, claimed := [], [], start, 0, 0, {};
      init, steps := start, [];
    }

    /** The driver's records and pool are those of a reachable state of the protocol. */
    ghost predicate Synced()
      reads this, recs, pool, pool.data
    {
      && Reached(init, steps, machine) && machine.recs == recs[..]
      && pool.Valid() && machine.free == pool.Contents() && |pool.original| == recs.Length
      && |pool.Contents()| >= reserve
    }

    // -------------------------------------------------------------- everybody else

    /** Takes one step of the protocol, whoever's it is. */
    method Perform(st: Step)
      requires Synced() && Enabled(machine, st) && (st.Fetch? ==> |machine.free| > reserve)
      modifies this`machine, this`steps, recs, pool`head, pool`tail, pool`taken, pool`given, pool.data
      ensures Synced() && machine == Apply(old(machine), st) && pool.data == old(pool.data)
      ensures steps == old(steps) + [st]
    {
      ReachedStep(init, steps, machine, st);
      SameRecordCount(machine, st);
      MovePool(st);
      machine := Apply(machine, st);
      steps := steps + [st];
      forall k | 0 <= k < recs.Length {
        recs[k] := machine.recs[k];
      }
      assert recs[..] == machine.recs;
    }

    /** What a step does to the pool. */
    method MovePool(st: Step)
      requires Reached(init, steps, machine) && Enabled(machine, st) && |machine.recs| == |pool.original|
      requires pool.Valid() && machine.free == pool.Contents()
      modifies pool`head, pool`tail, pool`taken, pool`given, pool.data
      ensures pool.Valid() && pool.data == old(pool.data) && pool.Contents() == Apply(machine, st).free
    {
      if st.Fetch? {
        var _ := pool.Take();
      } else if st.End? {
        EndHasRoom(init, steps, machine);
        var _ := pool.Give(machine.handler.rec);
      }
    }

    /** Lets the others go on for a while. */
    method Yield()
      requires Synced()
      modifies this`machine, this`steps, this`env, recs, pool`head, pool`tail, pool`taken, pool`given, pool.data
      ensures Synced() && pool.data == old(pool.data) && old(steps) <= steps
      ensures Kept(old(machine), machine, mine, claimed)
    {
      var todo := if env == [] then [] else env[0];
      env := if env == [] then [] else env[1..];
      var k := 0;
      while k < |todo|
        invariant k <= |todo| && Synced() && pool.data == old(pool.data) && old(steps) <= steps
        invariant Kept(old(machine), machine, mine, claimed)
      {
        var st := todo[k];
        if Enabled(machine, st) && Theirs(st, mine, claimed) && (st.Fetch? ==> |machine.free| > reserve) {
          ghost var w := machine;
          StepKept(init, steps, machine, st, mine, claimed);
          Perform(st);
          StaysTrans(old(machine), w, machine, claimed);
        }
        k := k + 1;
      }
    }

    // -------------------------------------------------------------- effects of the code

    /** The machine follows an effect that has just been made; then the others may go on. */
    method Follow(st: Step)
      requires Reached(init, steps, machine) && Enabled(machine, st) && !Theirs(st, mine, {}) && !st.Fetch?
      requires Apply(machine, st).recs == recs[..] && |pool.original| == recs.Length
      requires pool.Valid() && machine.free == pool.Contents() && |pool.Contents()| >= reserve
      modifies this`machine, this`steps, this`env, recs, pool`head, pool`tail, pool`taken, pool`given, pool.data
      ensures Synced() && pool.data == old(pool.data) && old(steps) <= steps
      ensures Kept(Apply(old(machine), st), machine, mine, claimed) && Stays(old(machine), machine, claimed)
    {
      ReachedStep(init, steps, machine, st);
      StepStays(init, steps, machine, st, claimed);
      machine, steps := Apply(machine, st), steps + [st];
      ghost var w := machine;
      Yield();
      StaysTrans(old(machine), w, machine, claimed);
    }

    /** The submission in progress. */
    ghost predicate Mine(rec: nat, u: Submission)
      reads this
    {
      mine < |machine.subs| && View(machine.subs[mine]) == View(u) && u.rec == rec && !u.pc.Done?
    }

    /** outstanding_reqs is raised for a segment that is not merged. */
    method Raise(rec: nat, ghost u: Submission)
      requires Synced() && Mine(rec, u) && u.pc.Segments? && u.at < |u.segs| && !MergesNext(u)
      modifies this`machine, this`steps, this`env, recs, pool`head, pool`tail, pool`taken, pool`given, pool.data
      ensures Synced() && pool.data == old(pool.data) && old(steps) <= steps
      ensures Mine(rec, Looked(u)) && Stays(old(machine), machine, claimed)
    {
      MineFacts(init, steps, machine, mine);
      ghost var before := recs[..];
      recs[rec] := recs[rec].(outstanding := recs[rec].outstanding + 1);
      assert recs[..] == Raised(before, rec);
      Follow(Step.Segment(mine));
    }

    /** A merged segment changes nothing that others can see. */
    method Merge(rec: nat, ghost u: Submission)
      requires Synced() && Mine(rec, u) && u.pc.Segments? && u.at < |u.segs| && MergesNext(u)
      modifies this`machine, this`steps, this`env, recs, pool`head, pool`tail, pool`taken, pool`given, pool.data
      ensures Synced() && pool.data == old(pool.data) && old(steps) <= steps
      ensures Mine(rec, Looked(u)) && Stays(old(machine), machine, claimed)
    {
      MineFacts(init, steps, machine, mine);
      Follow(Step.Segment(mine));
    }

    /** all_request_sent is set. */
    method SetAllSent(rec: nat, ghost u: Submission)
      requires Synced() && Mine(rec, u) && u.pc.Segments? && u.at == |u.segs|
      modifies this`machine, this`steps, this`env, recs, pool`head, pool`tail, pool`taken, pool`given, pool.data
      ensures Synced() && pool.data == old(pool.data) && old(steps) <= steps
      ensures Mine(rec, u.(pc := Marked)) && Stays(old(machine), machine, claimed)
    {
      MineFacts(init, steps, machine, mine);
      ghost var before := recs[..];
      recs[rec] := recs[rec].(allSent := true);
      assert recs[..] == before[rec := before[rec].(allSent := true)];
      Follow(Mark(mine));
    }

    /** Posts one work request.  Its record already counts it, and is marked sent if it is the last. */
    method RdmaOp(t: Transfer, rec: nat, ghost u: Submission)
      requires Synced() && Mine(rec, u) && (u.pc.Flushing? || u.pc.Marked?) && u.pending == Some(t)
      requires rec < recs.Length && recs[rec].outstanding > |u.sent| && (u.pc.Marked? ==> recs[rec].allSent)
      modifies this`machine, this`steps, this`env, this`sendq, recs, pool`head, pool`tail, pool`taken, pool`given, pool.data
      ensures Synced() && pool.data == old(pool.data) && old(steps) <= steps
      ensures sendq == old(sendq) + [Verbs.MakeWire(ctx, At(ctx.remVaddr, t), rec)]
      ensures mine < |machine.subs| && View(machine.subs[mine]) == View(if u.pc.Flushing? then Flushed1(u) else PostedLast(u))
      ensures Stays(old(machine), machine, claimed)
    {
      MineFacts(init, steps, machine, mine);
      sendq := sendq + [Verbs.MakeWire(ctx, At(ctx.remVaddr, t), rec)];
      if machine.subs[mine].pc.Flushing? {
        Follow(Flush(mine));
      } else {
        Follow(PostLast(mine));
      }
    }

    /** get_batch_request where the pool can supply a record. */
    method GetBatchRequest() returns (rec: nat)
      requires pool.Valid() && |pool.Contents()| >= 2
      modifies pool`head, pool`taken, pool.data
      ensures pool.Valid() && pool.data == old(pool.data)
      ensures rec == old(pool.Contents())[0] && pool.Contents() == old(pool.Contents())[1..]
    {
      var taken := pool.Take();
      rec := taken.value;
    }

    /** Takes a record for a request and fills it in. */
    method TakeRecord(id: nat, segs: seq<Transfer>) returns (rec: nat)
      requires Synced() && |pool.Contents()| > reserve >= 1 && id !in machine.fetchedAs && id !in claimed
      requires segs != [] && AllSound(segs) && Bytes(segs) < U32
      modifies this`mine, this`machine, this`steps, this`env, recs, pool`head, pool`tail, pool`taken, pool`given, pool.data
      ensures Synced() && pool.data == old(pool.data) && old(steps) <= steps
      ensures Mine(rec, Submission(id, rec, segs, 0, None, [], Segments, 0, false)) && mine >= |old(machine).subs|
      ensures id in machine.fetchedAs && machine.fetchedAs[id] == mine && Stays(old(machine), machine, claimed)
    {
      ghost var st, before := Fetch(id, segs), recs[..];
      FirstIsFree(init, steps, machine);
      ReachedStep(init, steps, machine, st);
      StepStays(init, steps, machine, st, claimed);
      mine := |machine.subs|;
      rec := GetBatchRequest();
      recs[rec] := Record(id, 0, 0, false);
      assert recs[..] == before[rec := Record(id, 0, 0, false)];
      machine, steps := Apply(machine, Fetch(id, segs)), steps + [st];
      ghost var w := machine;
      Yield();
      StaysTrans(old(machine), w, machine, claimed);
    }

    // -------------------------------------------------------------- the drain

    /** The submission has looked at p of its segments, its pending transfer is `cur`, and what it has
        posted follows `base` in the send queue. */
    ghost predicate Underway(rec: nat, cur: Option<Transfer>, base: seq<Verbs.Wire>, id: nat, all: seq<Transfer>, p: nat)
      reads this, recs
    {
      && mine < |machine.subs| && rec < recs.Length
      && var u := machine.subs[mine];
      && u.pc.Segments? && u.req == id && u.segs == all && u.at == p <= |all| && u.rec == rec && u.pending == cur
      && sendq == base + Verbs.Wires(ctx, AllAt(ctx.remVaddr, u.sent), rec)
    }

    /** One turn of the segment loop. */
    method AddSegment(rec: nat, cur: Option<Transfer>, t: Transfer,
                      ghost base: seq<Verbs.Wire>, ghost id: nat, ghost all: seq<Transfer>, ghost p: nat)
      returns (cur': Option<Transfer>)
      requires Synced() && Underway(rec, cur, base, id, all, p) && p < |all| && t == all[p]
      modifies this`machine, this`steps, this`env, this`sendq, recs, pool`head, pool`tail, pool`taken, pool`given, pool.data
      ensures Synced() && pool.data == old(pool.data) && old(steps) <= steps
      ensures Underway(rec, cur', base, id, all, p + 1) && Stays(old(machine), machine, claimed)
    {
      ghost var u := machine.subs[mine];
      match cur {
        case None =>
          cur' := Some(t);
          Raise(rec, u);
        case Some(c) =>
          if Mergeable(c, t) {
            cur' := Some(Merged(c, t));
            Merge(rec, u);
          } else {
            Raise(rec, u);
            FlushPending(c, rec, Looked(u), base);
            cur' := Some(t);
          }
      }
    }

    /** Posts the pending transfer. */
    method FlushPending(c: Transfer, rec: nat, ghost u: Submission, ghost base: seq<Verbs.Wire>)
      requires Synced() && Mine(rec, u) && (u.pc.Flushing? || u.pc.Marked?) && u.pending == Some(c)
      requires sendq == base + Verbs.Wires(ctx, AllAt(ctx.remVaddr, u.sent), rec)
      modifies this`machine, this`steps, this`env, this`sendq, recs, pool`head, pool`tail, pool`taken, pool`given, pool.data
      ensures Synced() && pool.data == old(pool.data) && old(steps) <= steps
      ensures mine < |machine.subs| && View(machine.subs[mine]) == View(if u.pc.Flushing? then Flushed1(u) else PostedLast(u))
      ensures sendq == base + Verbs.Wires(ctx, AllAt(ctx.remVaddr, u.sent + [c]), rec)
      ensures Stays(old(machine), machine, claimed)
    {
      MineFacts(init, steps, machine, mine);
      WiresSnoc(ctx, base, u.sent, c, rec);
      RdmaOp(c, rec, u);
    }

    /** Segment i of a bio that starts at position p of its request's transfers. */
    method WalkSegment(rec: nat, cur: Option<Transfer>, b: Bio, i: nat, sector: nat,
                       ghost base: seq<Verbs.Wire>, ghost id: nat, ghost all: seq<Transfer>, ghost p: nat)
      returns (cur': Option<Transfer>, sector': nat)
      requires Synced() && Underway(rec, cur, base, id, all, p + i) && i < |b.segs| && sector == SectorAt(b, i)
      requires BioAt(Rounded, all, p, b)
      modifies this`machine, this`steps, this`env, this`sendq, recs, pool`head, pool`tail, pool`taken, pool`given, pool.data
      ensures Synced() && pool.data == old(pool.data) && old(steps) <= steps
      ensures Underway(rec, cur', base, id, all, p + i + 1) && Stays(old(machine), machine, claimed)
      ensures sector' == SectorAt(b, i + 1)
    {
      SegmentInStream(Rounded, all, p, b, i);
      var t := Transfer(Direction(b), b.segs[i].addr, sector * SECTOR, CurBytes(b) / SECTOR * SECTOR);
      cur' := AddSegment(rec, cur, t, base, id, all, p + i);
      sector' := sector + CurBytes(b) / SECTOR;
    }

    method WalkBio(rec: nat, cur: Option<Transfer>, b: Bio,
                   ghost base: seq<Verbs.Wire>, ghost id: nat, ghost all: seq<Transfer>, ghost p: nat)
      returns (cur': Option<Transfer>, ghost p': nat)
      requires Synced() && Underway(rec, cur, base, id, all, p) && BioAt(Rounded, all, p, b)
      modifies this`machine, this`steps, this`env, this`sendq, recs, pool`head, pool`tail, pool`taken, pool`given, pool.data
      ensures Synced() && pool.data == old(pool.data) && old(steps) <= steps
      ensures Underway(rec, cur', base, id, all, p') && p' == p + |b.segs| && Stays(old(machine), machine, claimed)
    {
      StaysSelf(machine, claimed);
      cur' := cur;
      var sector := b.sector;
      var i := 0;
      while i < |b.segs|
        invariant i <= |b.segs| && sector == SectorAt(b, i)
        invariant Synced() && pool.data == old(pool.data) && old(steps) <= steps
        invariant Underway(rec, cur', base, id, all, p + i) && Stays(old(machine), machine, claimed)
      {
        ghost var w := machine;
        cur', sector := WalkSegment(rec, cur', b, i, sector, base, id, all, p);
        StaysTrans(old(machine), w, machine, claimed);
        i := i + 1;
      }
      p' := p + i;
    }

    method WalkRequest(rec: nat, bios: seq<Bio>, ghost base: seq<Verbs.Wire>, ghost id: nat) returns (cur: Option<Transfer>)
      requires Synced() && Underway(rec, None, base, id, BiosTransfers(Rounded, bios), 0)
      modifies this`machine, this`steps, this`env, this`sendq, recs, pool`head, pool`tail, pool`taken, pool`given, pool.data
      ensures Synced() && pool.data == old(pool.data) && old(steps) <= steps
      ensures Underway(rec, cur, base, id, BiosTransfers(Rounded, bios), |BiosTransfers(Rounded, bios)|)
      ensures Stays(old(machine), machine, claimed)
    {
      ghost var all := BiosTransfers(Rounded, bios);
      StaysSelf(machine, claimed);
      cur := None;
      ghost var p := 0;
      var j := 0;
      while j < |bios|
        invariant j <= |bios| && p == |BiosTransfers(Rounded, bios[..j])|
        invariant Synced() && pool.data == old(pool.data) && old(steps) <= steps
        invariant Underway(rec, cur, base, id, all, p) && Stays(old(machine), machine, claimed)
      {
        ghost var w := machine;
        BioInStream(Rounded, bios, j);
        cur, p := WalkBio(rec, cur, bios[j], base, id, all, p);
        StaysTrans(old(machine), w, machine, claimed);
        j := j + 1;
      }
      assert bios[..j] == bios;
    }

    /** The body of the fetch loop for a filesystem request. */
    method SubmitOne(id: nat, bios: seq<Bio>) returns (ghost posted: seq<Verbs.Wire>)
      requires Synced() && |pool.Contents()| > reserve >= 1 && id !in machine.fetchedAs && id !in claimed
      requires Submittable1(bios)
      modifies this`mine, this`machine, this`steps, this`env, this`sendq, recs, pool`head, pool`tail, pool`taken, pool`given, pool.data
      ensures Synced() && pool.data == old(pool.data) && old(steps) <= steps
      ensures Submitted(machine, id, BiosTransfers(Rounded, bios)) && Stays(old(machine), machine, claimed)
      ensures sendq == old(sendq) + posted
      ensures Verbs.Carried(posted) == AllAt(ctx.remVaddr, AsyncRun(true, BiosTransfers(Rounded, bios)))
      ensures forall x :: 0 <= x < |posted| ==> posted[x].wrId == machine.subs[machine.fetchedAs[id]].rec
    {
      ghost var base, all := sendq, BiosTransfers(Rounded, bios);
      var rec := TakeRecord(id, BiosTransfers(Rounded, bios));
      ghost var w1 := machine;
      assert Verbs.Wires(ctx, AllAt(ctx.remVaddr, []), rec) == [] && base + [] == base;
      MineFacts(init, steps, machine, mine);
      var cur := WalkRequest(rec, bios, base, id);
      StaysTrans(old(machine), w1, machine, claimed);
      posted := PostRest(rec, cur, base, id, all);
    }

    /** Marks the record and posts the last transfer, in that order. */
    method PostRest(rec: nat, cur: Option<Transfer>, ghost base: seq<Verbs.Wire>, ghost id: nat, ghost all: seq<Transfer>)
      returns (ghost posted: seq<Verbs.Wire>)
      requires Synced() && Underway(rec, cur, base, id, all, |all|)
      modifies this`machine, this`steps, this`env, this`sendq, recs, pool`head, pool`tail, pool`taken, pool`given, pool.data
      ensures Synced() && pool.data == old(pool.data) && old(steps) <= steps
      ensures Submitted(machine, id, all) && Stays(old(machine), machine, claimed)
      ensures sendq == base + posted && Verbs.Carried(posted) == AllAt(ctx.remVaddr, AsyncRun(true, all))
      ensures forall x :: 0 <= x < |posted| ==> posted[x].wrId == machine.subs[machine.fetchedAs[id]].rec
    {
      ghost var u := machine.subs[mine];
      LastBuild(init, steps, machine, mine);
      SetAllSent(rec, u);
      ghost var w := machine;
      FlushPending(cur.value, rec, u.(pc := Marked), base);
      StaysTrans(old(machine), w, machine, claimed);
      posted := Verbs.Wires(ctx, AllAt(ctx.remVaddr, u.sent + [cur.value]), rec);
      WiresCarry(ctx, AllAt(ctx.remVaddr, u.sent + [cur.value]), rec);
      SubmittedNow(init, steps, machine, mine);
    }

    /** What holds once the first i requests are dealt with. */
    ghost predicate Dealt(q: seq<Request>, i: nat, sendq0: seq<Verbs.Wire>, failed0: seq<nat>, posted: seq<Verbs.Wire>)
      reads this, recs, pool, pool.data
      requires i <= |q|
    {
      && Synced() && |pool.Contents()| + |FsIds(q[..i])| > |FsIds(q)|
      && sendq == sendq0 + posted && failed == failed0 + OtherIds(q[..i])
      && Verbs.Carried(posted) == AllAt(ctx.remVaddr, OneRun(PerRequest(q[..i])))
      && Followed(q, i, machine)
    }

    /** One turn of the fetch loop. */
    method FetchOne(r: Request) returns (ghost posted: seq<Verbs.Wire>)
      requires Synced() && (r.Fs? ==> Submittable1(r.bios) && |pool.Contents()| > reserve >= 1)
      requires r.Fs? ==> r.id !in machine.fetchedAs && r.id !in claimed
      modifies this`mine, this`machine, this`steps, this`env, this`sendq, this`failed, recs,
               pool`head, pool`tail, pool`taken, pool`given, pool.data
      ensures Synced() && pool.data == old(pool.data) && old(steps) <= steps && Stays(old(machine), machine, claimed)
      ensures r.Fs? ==> Submitted(machine, r.id, BiosTransfers(Rounded, r.bios))
      ensures sendq == old(sendq) + posted
      ensures Verbs.Carried(posted) == AllAt(ctx.remVaddr, if r.Fs? then AsyncRun(true, BiosTransfers(Rounded, r.bios)) else [])
      ensures failed == old(failed) + (if r.Fs? then [] else [r.id])
    {
      match r {
        case Other(id) =>
          failed := failed + [id];
          posted := [];
          StaysSelf(machine, claimed);
        case Fs(id, bios) =>
          posted := SubmitOne(id, bios);
      }
    }

    method FetchNext(q: seq<Request>, i: nat, ghost sendq0: seq<Verbs.Wire>, ghost failed0: seq<nat>,
                     ghost before: seq<Verbs.Wire>)
      returns (ghost posted: seq<Verbs.Wire>)
      requires i < |q| && Submittable(q) && DistinctIds(q) && Dealt(q, i, sendq0, failed0, before)
      modifies this`mine, this`reserve, this`claimed, this`machine, this`steps, this`env, this`sendq, this`failed, recs,
               pool`head, pool`tail, pool`taken, pool`given, pool.data
      ensures pool.data == old(pool.data) && old(steps) <= steps && Dealt(q, i + 1, sendq0, failed0, posted)
    {
      FsPrefix(q, i);
      reserve := |FsIds(q)| - |FsIds(q[..i + 1])| + 1;
      claimed := IdsFrom(q, i + 1);
      ghost var more := FetchOne(q[i]);
      FollowedOn(q, i, old(machine), machine);
      Regroup(sendq0, before, more);
      OthersMore(q, i, failed0);
      CarriedMore(ctx, q, i, before, more);
      posted := before + more;
    }

    /** rmem_request_one, for every schedule of the handler and of other submitters. */
    method RequestOne(q: seq<Request>) returns (ghost posted: seq<Verbs.Wire>)
      requires Synced() && |pool.Contents()| > |FsIds(q)|
      requires Submittable(q) && DistinctIds(q)
      requires forall k :: 0 <= k < |q| && q[k].Fs? ==> q[k].id !in machine.fetchedAs
      modifies this`mine, this`reserve, this`claimed, this`machine, this`steps, this`env, this`sendq, this`failed, recs,
               pool`head, pool`tail, pool`taken, pool`given, pool.data
      ensures Synced() && pool.data == old(pool.data) && old(steps) <= steps
      ensures forall k :: 0 <= k < |q| && q[k].Fs? ==> Submitted(machine, q[k].id, BiosTransfers(Rounded, q[k].bios))
      ensures sendq == old(sendq) + posted
      ensures Verbs.Carried(posted) == AllAt(ctx.remVaddr, OneRun(PerRequest(q)))
      ensures failed == old(failed) + OtherIds(q)
    {
      var i := 0;
      posted := [];
      while i < |q|
        invariant i <= |q| && pool.data == old(pool.data) && old(steps) <= steps
        invariant Dealt(q, i, old(sendq), old(failed), posted)
      {
        posted := FetchNext(q, i, old(sendq), old(failed), posted);
        i := i + 1;
      }
      assert q[..i] == q;
    }
  }

  function IdsFrom(q: seq<Request>, i: nat): set<nat> {
    set k | i <= k < |q| && q[k].Fs? :: q[k].id
  }

  /** The block layer hands out each request once. */
  predicate DistinctIds(q: seq<Request>) {
    forall j, k :: 0 <= j < k < |q| && q[j].Fs? && q[k].Fs? ==> q[j].id != q[k].id
  }

  /** The first i requests are submitted, the others not yet fetched. */
  ghost predicate Followed(q: seq<Request>, i: nat, v: State)
    requires i <= |q|
  {
    && (forall k :: 0 <= k < i && q[k].Fs? ==> Submitted(v, q[k].id, BiosTransfers(Rounded, q[k].bios)))
    && (forall k :: i <= k < |q| && q[k].Fs? ==> q[k].id !in v.fetchedAs)
  }

  lemma FollowedOn(q: seq<Request>, i: nat, v: State, u: State)
    requires i < |q| && Followed(q, i, v) && Stays(v, u, IdsFrom(q, i + 1))
    requires q[i].Fs? ==> Submitted(u, q[i].id, BiosTransfers(Rounded, q[i].bios))
    ensures Followed(q, i + 1, u)
  {
    forall k | 0 <= k < i && q[k].Fs? ensures Submitted(u, q[k].id, BiosTransfers(Rounded, q[k].bios)) {
      SubmittedStays(v, u, q[k].id, BiosTransfers(Rounded, q[k].bios), IdsFrom(q, i + 1));
    }
    forall k | i + 1 <= k < |q| && q[k].Fs? ensures q[k].id !in u.fetchedAs {
      assert q[k].id in IdsFrom(q, i + 1);
    }
  }

  lemma SubmittedStays(w: State, v: State, id: nat, segs: seq<Transfer>, claimed: set<nat>)
    requires Submitted(w, id, segs) && Stays(w, v, claimed)
    ensures Submitted(v, id, segs)
  {
  }

  /** What is known about a submission in progress. */
  lemma {:induction false} MineFacts(init: State, steps: seq<Step>, w: State, i: nat)
    requires Reached(init, steps, w) && i < |w.subs| && !w.subs[i].pc.Done?
    ensures var u := w.subs[i];
            && BuildOk(u) && u.rec < |w.recs| && w.recs[u.rec] == Record(u.req, Announced(u), u.handled, u.pc.Marked?)
            && (u.pc.Flushing? || u.pc.Marked? ==> Announced(u) > |u.sent|)
            && Enabled(w, OneProgress.NextOf(u, i))
  {
    ReachedInv(init, steps, w);
    assert SubOk(w.subs[i], w.recs);
    OneProgress.SubmitterIsEnabled(w, i);
  }

  lemma {:induction false} FirstIsFree(init: State, steps: seq<Step>, w: State)
    requires Reached(init, steps, w) && w.free != []
    ensures w.free[0] < |w.recs|
  {
    ReachedInv(init, steps, w);
    assert w.free[0] in w.free;
  }

  lemma StaysSelf(w: State, claimed: set<nat>)
    ensures Stays(w, w, claimed)
  {
  }

  /** A request with transfers `segs` has been fetched and its submitter is done. */
  ghost predicate Submitted(w: State, id: nat, segs: seq<Transfer>) {
    Asked(w, id, segs) && w.subs[w.fetchedAs[id]].pc.Done?
  }

  /** What the code has submitted can be ended without anybody taking on new work, and once it is ended, the
      work requests reaped for it moved exactly its bytes. */
  lemma {:induction false} SubmittedIsServed(init: State, steps: seq<Step>, w: State, id: nat, segs: seq<Transfer>)
    returns (all: seq<Step>)
    requires Reached(init, steps, w) && Submitted(w, id, segs)
    ensures steps <= all && OneProgress.NoNewWork(all, |steps|) && Run(init, all).Some? && id in Run(init, all).value.log
    ensures id in w.log ==> var u := w.subs[w.fetchedAs[id]]; u.handled == |u.sent| && AllMoves(u.sent) == AllMoves(segs)
  {
    ReachedRuns(init, steps, w);
    all := OneProgress.CanAlwaysFinish(init, steps);
    if id in w.log {
      var _ := OneCompletionSafety(init, steps, id);
      var u := w.subs[w.fetchedAs[id]];
      assert u.sent[..u.handled] == u.sent;
    }
  }

  lemma {:induction false} SubmittedNow(init: State, steps: seq<Step>, w: State, i: nat)
    requires Reached(init, steps, w) && i < |w.subs| && w.subs[i].pc.Done?
    ensures Submitted(w, w.subs[i].req, w.subs[i].segs) && w.fetchedAs[w.subs[i].req] == i
  {
    ReachedInv(init, steps, w);
  }

  lemma {:induction false} LastBuild(init: State, steps: seq<Step>, w: State, i: nat)
    requires Reached(init, steps, w) && i < |w.subs| && w.subs[i].pc.Segments? && w.subs[i].at == |w.subs[i].segs|
    ensures w.subs[i].pending.Some? && w.subs[i].sent + [w.subs[i].pending.value] == AsyncRun(true, w.subs[i].segs)
  {
    ReachedInv(init, steps, w);
    var u := w.subs[i];
    assert SubOk(u, w.recs);
    assert u.segs[..u.at] == u.segs;
  }

  lemma WiresCarry(ctx: Verbs.Context, ts: seq<Transfer>, rec: nat)
    ensures Verbs.Carried(Verbs.Wires(ctx, ts, rec)) == ts
    ensures forall x :: 0 <= x < |ts| ==> Verbs.Wires(ctx, ts, rec)[x].wrId == rec
  {
  }

  lemma WiresSnoc(ctx: Verbs.Context, base: seq<Verbs.Wire>, ts: seq<Transfer>, t: Transfer, rec: nat)
    ensures base + Verbs.Wires(ctx, AllAt(ctx.remVaddr, ts + [t]), rec) ==
            base + Verbs.Wires(ctx, AllAt(ctx.remVaddr, ts), rec) + [Verbs.MakeWire(ctx, At(ctx.remVaddr, t), rec)]
  {
  }

  lemma CarriedConcat(a: seq<Verbs.Wire>, b: seq<Verbs.Wire>)
    ensures Verbs.Carried(a + b) == Verbs.Carried(a) + Verbs.Carried(b)
  {
  }

  lemma FsPrefix(q: seq<Request>, i: nat)
    requires i < |q|
    ensures |FsIds(q[..i + 1])| == |FsIds(q[..i])| + (if q[i].Fs? then 1 else 0) <= |FsIds(q)|
  {
    Prefixes(Rounded, q, i);
    QueuePrefix(Rounded, q, i + 1);
  }

  lemma {:induction false} CarriedMore(ctx: Verbs.Context, q: seq<Request>, i: nat, before: seq<Verbs.Wire>, more: seq<Verbs.Wire>)
    requires i < |q| && Verbs.Carried(before) == AllAt(ctx.remVaddr, OneRun(PerRequest(q[..i])))
    requires Verbs.Carried(more) == AllAt(ctx.remVaddr, if q[i].Fs? then AsyncRun(true, BiosTransfers(Rounded, q[i].bios)) else [])
    ensures Verbs.Carried(before + more) == AllAt(ctx.remVaddr, OneRun(PerRequest(q[..i + 1])))
  {
    CarriedConcat(before, more);
    OneRunMore(ctx, q, i);
  }

  lemma {:induction false} OthersMore(q: seq<Request>, i: nat, failed0: seq<nat>)
    requires i < |q|
    ensures failed0 + OtherIds(q[..i]) + (if q[i].Fs? then [] else [q[i].id]) == failed0 + OtherIds(q[..i + 1])
  {
    Prefixes(Rounded, q, i);
  }

  lemma {:induction false} OneRunMore(ctx: Verbs.Context, q: seq<Request>, i: nat)
    requires i < |q|
    ensures AllAt(ctx.remVaddr, OneRun(PerRequest(q[..i + 1]))) ==
            AllAt(ctx.remVaddr, OneRun(PerRequest(q[..i]))) +
            AllAt(ctx.remVaddr, if q[i].Fs? then AsyncRun(true, BiosTransfers(Rounded, q[i].bios)) else [])
  {
    PerRequestPrefix(q, i);
    var before := PerRequest(q[..i]);
    if q[i].Fs? {
      var ts := BiosTransfers(Rounded, q[i].bios);
      assert (before + [ts])[..|before + [ts]| - 1] == before;
      AllAtConcat(ctx.remVaddr, OneRun(before), AsyncRun(true, ts));
    } else {
      assert before + [] == before;
    }
  }

  predicate Submittable1(bios: seq<Bio>) {
    && BiosTransfers(Rounded, bios) != [] && AllSound(BiosTransfers(Rounded, bios))
    && Bytes(BiosTransfers(Rounded, bios)) < U32
  }

  /** What the driver takes for granted: requests have segments, lengths add up below 2^32. */
  predicate Submittable(q: seq<Request>) {
    forall i :: 0 <= i < |q| && q[i].Fs? ==> Submittable1(q[i].bios)
  }
}
