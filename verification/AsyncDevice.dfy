/**
 The device in MODE_ASYNC: rmem_request_async with its in-place request array and batch records, and
 rdma_op posting the array.

 The ghost field `drain` follows the code through the very steps of the protocol (`Fetched`,
 `Segmented`, `Finished`), so what the protocol proves about a drain is proved about this code.  The
 ghost field `acts` records them, from the stage `origin` on.
 */
module AsyncDevice {
  import opened Transfers
  import opened BlockLayer
  import opened Batching
  import opened RingPool
  import opened AsyncDrain
  import opened AsyncBuild
  import Verbs

  /** Distinct record numbers below n, none of them held by the drain; folded away. */
  ghost predicate Clear(d: Drain, contents: seq<nat>, n: nat) {
    forall k: int {:trigger Key(k)} :: Key(k) ==> ClearOf(d, contents, n)
  }

  ghost predicate ClearOf(d: Drain, contents: seq<nat>, n: nat) {
    Distinct(contents) && forall r :: r in contents ==> r < n && Foreign(d, r)
  }

  /** What is known about the record at the head of the pool, and about those left behind. */
  lemma TakenIsFresh(d: Drain, contents: seq<nat>, n: nat, req: nat, segs: seq<Transfer>)
    requires Clear(d, contents, n) && contents != [] && DistinctRecs(d) && d.ended <= |d.items|
    ensures contents[0] < n && Foreign(d, contents[0])
    ensures DistinctRecs(Fetched(d, req, contents[0], segs))
    ensures Clear(Fetched(d, req, contents[0], segs), contents[1..], n)
  {
    assert Key(0);
    assert contents[0] in contents;
    forall r | r in contents[1..] ensures r < n && Foreign(Fetched(d, req, contents[0], segs), r) {
      assert r in contents && Foreign(d, r);
      var x :| 0 <= x < |contents[1..]| && contents[1..][x] == r;
      assert contents[x + 1] == r;
    }
  }

  lemma FetchedSealed(d: Drain, recs: seq<Record>, contents: seq<nat>, req: nat, segs: seq<Transfer>)
    requires Sealed(d, recs) && d.phase.Between?
    requires Clear(d, contents, |recs|) && contents != []
    requires segs != [] && AllSound(segs) && (d.merge ==> Bytes(Ts(d.entries)) + Bytes(segs) < U32)
    ensures contents[0] < |recs| && Clear(Fetched(d, req, contents[0], segs), contents[1..], |recs|)
    ensures Sealed(Fetched(d, req, contents[0], segs), recs[contents[0] := Record(req, 0, None)])
  {
    Unseal(d, recs);
    TakenIsFresh(d, contents, |recs|, req, segs);
    FetchedOk(d, recs, req, contents[0], segs);
    Seal(Fetched(d, req, contents[0], segs), recs[contents[0] := Record(req, 0, None)]);
  }

  /** Taking a record, as an act. */
  lemma {:induction false} TakeLeads(origin: Stage, acts: seq<Act>, d: Drain, recs: seq<Record>, contents: seq<nat>, req: nat, segs: seq<Transfer>)
    requires Sealed(d, recs) && d.phase.Between? && Clear(d, contents, |recs|) && |contents| >= 2
    requires segs != [] && AllSound(segs) && (d.merge ==> Bytes(Ts(d.entries)) + Bytes(segs) < U32)
    requires Leads(origin, acts, Stage(d, recs, contents))
    ensures contents[0] < |recs| && Clear(Fetched(d, req, contents[0], segs), contents[1..], |recs|)
    ensures Sealed(Fetched(d, req, contents[0], segs), recs[contents[0] := Record(req, 0, None)])
    ensures Leads(origin, acts + [Take(req, segs)],
                  Stage(Fetched(d, req, contents[0], segs), recs[contents[0] := Record(req, 0, None)], contents[1..]))
  {
    FetchedSealed(d, recs, contents, req, segs);
    LeadsOn(origin, acts, Stage(d, recs, contents), Take(req, segs));
  }

  lemma SegmentedSealed(d: Drain, recs: seq<Record>)
    requires Sealed(d, recs) && d.phase.InRequest? && d.phase.left != []
    requires d.items != [] && Last(d).rec < |recs|
    ensures Sealed(Segmented(d), Counted(d, recs))
  {
    Unseal(d, recs);
    SegmentedOk(d, recs);
    SegmentedHeld(d);
    HeldSame(Segmented(d), d);
    Seal(Segmented(d), Counted(d, recs));
  }

  lemma FinishedSealed(d: Drain, recs: seq<Record>)
    requires Sealed(d, recs) && d.phase == InRequest([])
    ensures d.items != [] && Last(d).rec < |recs|
    ensures recs[Last(d).rec].outstanding == 0 ==> |d.items| >= 2 && d.items[|d.items| - 2].rec < |recs|
    ensures Sealed(Finished(d), Hung(d, recs))
  {
    Unseal(d, recs);
    PreviousRecordExists(d, recs);
    FinishedOk(d, recs);
    Seal(Finished(d), Hung(d, recs));
  }

  class Device {
    const ctx: Verbs.Context
    const merge: bool
    const recs: array<Record>
    const pool: Ring<nat>
    var sendq: seq<Verbs.Wire>
    var failed: seq<nat>
    ghost var drain: Drain
    ghost var origin: Stage
    ghost var acts: seq<Act>

    constructor (ctx: Verbs.Context, merge: bool, recs: array<Record>, pool: Ring<nat>)
      ensures this.ctx == ctx && this.merge == merge && this.recs == recs && this.pool == pool
      ensures sendq == [] && failed == [] && drain == FreshDrain(merge)
    {
      this.ctx, this.merge, this.recs, this.pool := ctx, merge, recs, pool;
      sendq, failed, drain := [], [], FreshDrain(merge);
      origin, acts := Stage(FreshDrain(merge), [], []), [];
    }

    /** The pool holds distinct record numbers, none of them held by the drain. */
    ghost predicate PoolOk()
      reads this, pool, pool.data
    {
      pool.Valid() && Clear(drain, pool.Contents(), recs.Length)
    }

    /** The first `count` slots are the drain's entries, the records are as the drain left them, and the
        acts performed since the drain began lead to just this. */
    ghost predicate Built(rdmaReq: array<Entry>, count: nat)
      reads this, recs, rdmaReq, pool, pool.data
    {
      && count <= rdmaReq.Length && rdmaReq[..count] == drain.entries && drain.merge == merge
      && Sealed(drain, recs[..])
      && pool.Valid() && Leads(origin, acts, Stage(drain, recs[..], pool.Contents()))
    }

    // -------------------------------------------------------------- one request

    /** get_batch_request where the pool can supply a record. */
    method GetBatchRequest() returns (batch: nat)
      requires pool.Valid() && |pool.Contents()| >= 2
      modifies pool`head, pool`taken, pool.data
      ensures pool.Valid() && pool.data == old(pool.data)
      ensures batch == old(pool.Contents())[0] && pool.Contents() == old(pool.Contents())[1..]
    {
      var taken := pool.Take();
      batch := taken.value;
    }

    method TakeRecord(req: nat, rdmaReq: array<Entry>, count: nat, ghost segs: seq<Transfer>) returns (batch: nat)
      requires Built(rdmaReq, count) && PoolOk() && drain.phase.Between?
      requires |pool.Contents()| >= 2
      requires segs != [] && AllSound(segs) && (merge ==> Bytes(Ts(drain.entries)) + Bytes(segs) < U32)
      modifies this`drain, this`acts, recs, pool`head, pool`taken, pool.data
      ensures Built(rdmaReq, count) && PoolOk() && pool.data == old(pool.data)
      ensures |pool.Contents()| == |old(pool.Contents())| - 1
      ensures drain == Fetched(old(drain), req, batch, segs) && batch < recs.Length
    {
      ghost var contents := pool.Contents();
      TakeLeads(origin, acts, drain, recs[..], contents, req, segs);
      ghost var cells := recs[..][contents[0] := Record(req, 0, None)];
      acts := acts + [Take(req, segs)];
      batch := GetBatchRequest();
      recs[batch] := Record(req, 0, None);
      drain := Fetched(drain, req, batch, segs);
      assert recs[..] == cells;
    }

    /** One turn of the segment loop: `t` is the next transfer of the request in progress. */
    method AddSegment(rdmaReq: array<Entry>, count: nat, batch: nat, t: Transfer) returns (count': nat)
      requires Built(rdmaReq, count) && count < rdmaReq.Length
      requires drain.phase.InRequest? && drain.phase.left != [] && t == drain.phase.left[0]
      requires drain.items != [] && batch == Last(drain).rec < recs.Length
      modifies this`drain, this`acts, recs, rdmaReq
      ensures Built(rdmaReq, count') && drain == Segmented(old(drain))
      ensures Ts(drain.entries) == Coalesce(merge, old(Ts(drain.entries)), t)
    {
      ghost var before, d := recs[..], drain;
      SegmentedSealed(d, before);
      LeadsOn(origin, acts, Stage(d, before, pool.Contents()), Look);
      acts := acts + [Look];
      PlaceIsCoalesce(merge, d.entries, t, batch);
      rdmaReq[count] := Entry(t, batch);
      assert rdmaReq[..count] == d.entries;
      if merge && count > 0 && Mergeable(rdmaReq[count - 1].t, rdmaReq[count].t) {
        assert Merges(merge, d.entries, t);
        rdmaReq[count - 1] := rdmaReq[count - 1].(t := Merged(rdmaReq[count - 1].t, rdmaReq[count].t));
        count' := count;
      } else {
        assert !Merges(merge, d.entries, t);
        recs[batch] := recs[batch].(outstanding := recs[batch].outstanding + 1);
        count' := count + 1;
      }
      drain := Segmented(d);
      assert rdmaReq[..count'] == drain.entries;
      assert recs[..] == Counted(d, before);
    }

    /** A request that created no entry is hung on the request fetched before it. */
    method FinishRequest(rdmaReq: array<Entry>, count: nat, batch: nat, last: Option<nat>)
      requires Built(rdmaReq, count) && drain.phase == InRequest([])
      requires drain.items != [] && batch == Last(drain).rec
      requires last == if |drain.items| >= 2 then Some(drain.items[|drain.items| - 2].rec) else None
      modifies this`drain, this`acts, recs
      ensures Built(rdmaReq, count) && drain == Finished(old(drain))
    {
      ghost var before, d := recs[..], drain;
      FinishedSealed(d, before);
      LeadsOn(origin, acts, Stage(d, before, pool.Contents()), Close);
      acts := acts + [Close];
      if recs[batch].outstanding == 0 {
        recs[last.value] := recs[last.value].(next := Some(batch));
      }
      drain := Finished(d);
      assert recs[..] == Hung(d, before);
    }

    // -------------------------------------------------------------- the drain

    /** The drain is `p` segments into a request whose transfers are `all`, after the requests `done`,
        whose transfers are `seen`. */
    ghost predicate InSegment(done: seq<seq<Transfer>>, seen: seq<Transfer>, all: seq<Transfer>, p: nat)
      reads this
    {
      && p <= |all| && drain.phase == InRequest(all[p..]) && Segs(drain) == done + [all[..p]]
      && Ts(drain.entries) == AsyncRun(merge, seen + all[..p])
    }

    /** Segment i of a bio that starts at position p of its request's transfers. */
    method WalkSegment(rdmaReq: array<Entry>, count: nat, batch: nat, b: Bio, i: nat, sector: nat,
                       ghost done: seq<seq<Transfer>>, ghost seen: seq<Transfer>, ghost all: seq<Transfer>, ghost p: nat)
      returns (count': nat, sector': nat)
      requires Built(rdmaReq, count) && InSegment(done, seen, all, p + i) && i < |b.segs| && sector == SectorAt(b, i)
      requires drain.items != [] && batch == Last(drain).rec < recs.Length
      requires BioAt(Rounded, all, p, b)
      requires |AsyncRun(merge, seen + all)| < rdmaReq.Length
      modifies this`drain, this`acts, recs, rdmaReq
      ensures Built(rdmaReq, count') && InSegment(done, seen, all, p + i + 1)
      ensures Held(drain) == old(Held(drain)) && sector' == SectorAt(b, i + 1)
      ensures drain.items != [] && batch == Last(drain).rec
    {
      SegmentInStream(Rounded, all, p, b, i);
      SegmentSeen(merge, seen, all, p + i);
      SegmentDone(drain, done, all, p + i);
      SegmentedHeld(drain);
      assert count == |Ts(drain.entries)|;
      var t := Transfer(Direction(b), b.segs[i].addr, sector * SECTOR, CurBytes(b) / SECTOR * SECTOR);
      count' := AddSegment(rdmaReq, count, batch, t);
      HeldLast(old(drain), drain);
      sector' := sector + CurBytes(b) / SECTOR;
    }

    method WalkBio(rdmaReq: array<Entry>, count: nat, batch: nat, b: Bio,
                   ghost done: seq<seq<Transfer>>, ghost seen: seq<Transfer>, ghost all: seq<Transfer>, ghost p: nat)
      returns (count': nat, ghost p': nat)
      requires Built(rdmaReq, count) && InSegment(done, seen, all, p)
      requires drain.items != [] && batch == Last(drain).rec < recs.Length
      requires BioAt(Rounded, all, p, b)
      requires |AsyncRun(merge, seen + all)| < rdmaReq.Length
      modifies this`drain, this`acts, recs, rdmaReq
      ensures Built(rdmaReq, count') && InSegment(done, seen, all, p') && p' == p + |b.segs|
      ensures Held(drain) == old(Held(drain))
    {
      count' := count;
      var sector := b.sector;
      var i := 0;
      while i < |b.segs|
        invariant i <= |b.segs| && sector == SectorAt(b, i)
        invariant Built(rdmaReq, count') && InSegment(done, seen, all, p + i)
        invariant Held(drain) == old(Held(drain)) && drain.items != [] && batch == Last(drain).rec
      {
        count', sector := WalkSegment(rdmaReq, count', batch, b, i, sector, done, seen, all, p);
        i := i + 1;
      }
      p' := p + i;
    }

    method WalkRequest(rdmaReq: array<Entry>, count: nat, batch: nat, bios: seq<Bio>,
                       ghost done: seq<seq<Transfer>>, ghost seen: seq<Transfer>)
      returns (count': nat)
      requires Built(rdmaReq, count) && InSegment(done, seen, BiosTransfers(Rounded, bios), 0)
      requires drain.items != [] && batch == Last(drain).rec < recs.Length
      requires |AsyncRun(merge, seen + BiosTransfers(Rounded, bios))| < rdmaReq.Length
      modifies this`drain, this`acts, recs, rdmaReq
      ensures Built(rdmaReq, count') && Held(drain) == old(Held(drain))
      ensures drain.phase == InRequest([]) && Segs(drain) == done + [BiosTransfers(Rounded, bios)]
      ensures Ts(drain.entries) == AsyncRun(merge, seen + BiosTransfers(Rounded, bios))
    {
      ghost var all := BiosTransfers(Rounded, bios);
      count' := count;
      ghost var p := 0;
      var j := 0;
      while j < |bios|
        invariant j <= |bios| && p == |BiosTransfers(Rounded, bios[..j])|
        invariant Built(rdmaReq, count') && InSegment(done, seen, all, p)
        invariant Held(drain) == old(Held(drain))
      {
        HeldLast(old(drain), drain);
        BioInStream(Rounded, bios, j);
        count', p := WalkBio(rdmaReq, count', batch, bios[j], done, seen, all, p);
        j := j + 1;
      }
      assert bios[..j] == bios;
      WholeSeq(all);
    }

    /** What holds between two fetches: the requests `ids` with transfers `done`, in all `seen`, are built. */
    ghost predicate Fetching(rdmaReq: array<Entry>, count: nat, batch: Option<nat>,
                             done: seq<seq<Transfer>>, seen: seq<Transfer>, ids: seq<nat>)
      reads this, recs, rdmaReq, pool, pool.data
    {
      && Built(rdmaReq, count) && PoolOk() && drain.phase.Between?
      && batch == (if drain.items == [] then None else Some(Last(drain).rec))
      && Ts(drain.entries) == AsyncRun(merge, seen) && Reqs(drain) == ids && Segs(drain) == done
    }

    /** Takes a record for a request and builds the request's transfers. */
    method BuildOne(rdmaReq: array<Entry>, count: nat, id: nat, bios: seq<Bio>,
                    ghost done: seq<seq<Transfer>>, ghost seen: seq<Transfer>)
      returns (count': nat, rec: nat)
      requires Built(rdmaReq, count) && PoolOk() && drain.phase.Between? && |pool.Contents()| >= 2
      requires Ts(drain.entries) == AsyncRun(merge, seen) && Segs(drain) == done
      requires BiosTransfers(Rounded, bios) != []
      requires AllSound(seen + BiosTransfers(Rounded, bios)) && (merge ==> Bytes(seen + BiosTransfers(Rounded, bios)) < U32)
      requires |AsyncRun(merge, seen + BiosTransfers(Rounded, bios))| < rdmaReq.Length
      modifies this`drain, this`acts, recs, rdmaReq, pool`head, pool`taken, pool.data
      ensures Built(rdmaReq, count') && PoolOk() && drain.phase == InRequest([])
      ensures pool.data == old(pool.data) && |pool.Contents()| == |old(pool.Contents())| - 1
      ensures Ts(drain.entries) == AsyncRun(merge, seen + BiosTransfers(Rounded, bios))
      ensures Segs(drain) == done + [BiosTransfers(Rounded, bios)]
      ensures Follows(old(drain), drain, id, rec)
    {
      ghost var d0, all := drain, BiosTransfers(Rounded, bios);
      StreamSplits(merge, seen, all);
      rec := TakeRecord(id, rdmaReq, count, all);
      NothingYet(seen, all);
      SegsOfFetched(d0, id, rec, all);
      count' := WalkTaken(rdmaReq, count, rec, bios, done, seen, d0, id);
    }

    /** The rest of it: the request's record has been taken. */
    method WalkTaken(rdmaReq: array<Entry>, count: nat, rec: nat, bios: seq<Bio>,
                     ghost done: seq<seq<Transfer>>, ghost seen: seq<Transfer>, ghost d0: Drain, ghost id: nat)
      returns (count': nat)
      requires Built(rdmaReq, count) && PoolOk() && InSegment(done, seen, BiosTransfers(Rounded, bios), 0)
      requires drain == Fetched(d0, id, rec, BiosTransfers(Rounded, bios)) && rec < recs.Length
      requires |AsyncRun(merge, seen + BiosTransfers(Rounded, bios))| < rdmaReq.Length
      modifies this`drain, this`acts, recs, rdmaReq
      ensures Built(rdmaReq, count') && PoolOk() && drain.phase == InRequest([])
      ensures Ts(drain.entries) == AsyncRun(merge, seen + BiosTransfers(Rounded, bios))
      ensures Segs(drain) == done + [BiosTransfers(Rounded, bios)] && Follows(d0, drain, id, rec)
    {
      ghost var d1, contents := drain, pool.Contents();
      count' := WalkRequest(rdmaReq, count, rec, bios, done, seen);
      assert pool.Contents() == contents;
      FetchedNames(d0, d1, drain, id, rec, contents, recs.Length);
    }

    method FetchOne(rdmaReq: array<Entry>, count: nat, batch: Option<nat>, id: nat, bios: seq<Bio>,
                    ghost done: seq<seq<Transfer>>, ghost seen: seq<Transfer>, ghost ids: seq<nat>)
      returns (count': nat, batch': Option<nat>)
      requires Fetching(rdmaReq, count, batch, done, seen, ids) && |pool.Contents()| >= 2
      requires BiosTransfers(Rounded, bios) != []
      requires AllSound(seen + BiosTransfers(Rounded, bios)) && (merge ==> Bytes(seen + BiosTransfers(Rounded, bios)) < U32)
      requires |AsyncRun(merge, seen + BiosTransfers(Rounded, bios))| < rdmaReq.Length
      modifies this`drain, this`acts, recs, rdmaReq, pool`head, pool`taken, pool.data
      ensures pool.data == old(pool.data)
      ensures Fetching(rdmaReq, count', batch', done + [BiosTransfers(Rounded, bios)], seen + BiosTransfers(Rounded, bios), ids + [id])
      ensures |pool.Contents()| == |old(pool.Contents())| - 1
    {
      var last, rec := batch, 0;
      count', rec := BuildOne(rdmaReq, count, id, bios, done, seen);
      batch' := Some(rec);
      FinishedNames(drain, pool.Contents(), recs.Length);
      FinishRequest(rdmaReq, count', rec, last);
    }

    /** One turn of the fetch loop. */
    method FetchRequest(r: Request, rdmaReq: array<Entry>, count: nat, batch: Option<nat>,
                        ghost done: seq<seq<Transfer>>, ghost seen: seq<Transfer>, ghost ids: seq<nat>)
      returns (count': nat, batch': Option<nat>)
      requires Fetching(rdmaReq, count, batch, done, seen, ids)
      requires r.Fs? ==> |pool.Contents()| >= 2 && RequestTransfers(Rounded, r) != []
      requires AllSound(seen + RequestTransfers(Rounded, r)) && (merge ==> Bytes(seen + RequestTransfers(Rounded, r)) < U32)
      requires |AsyncRun(merge, seen + RequestTransfers(Rounded, r))| < rdmaReq.Length
      modifies this`drain, this`acts, this`failed, recs, rdmaReq, pool`head, pool`taken, pool.data
      ensures pool.data == old(pool.data)
      ensures Fetching(rdmaReq, count', batch', done + (if r.Fs? then [RequestTransfers(Rounded, r)] else []),
                       seen + RequestTransfers(Rounded, r), ids + (if r.Fs? then [r.id] else []))
      ensures failed == old(failed) + (if r.Fs? then [] else [r.id])
      ensures |pool.Contents()| == |old(pool.Contents())| - (if r.Fs? then 1 else 0)
    {
      match r {
        case Other(id) =>
          failed := failed + [id];
          count', batch' := count, batch;
          assert done + [] == done && seen + [] == seen && ids + [] == ids;
        case Fs(id, bios) =>
          count', batch' := FetchOne(rdmaReq, count, batch, id, bios, done, seen, ids);
      }
    }

    /** What holds once the first i requests of the queue are dealt with. */
    ghost predicate Dealt(q: seq<Request>, i: nat, rdmaReq: array<Entry>, count: nat, batch: Option<nat>,
                          failed0: seq<nat>, size: nat)
      reads this, recs, rdmaReq, pool, pool.data
      requires i <= |q|
    {
      && Fetching(rdmaReq, count, batch, PerRequest(q[..i]), QueueTransfers(Rounded, q[..i]), FsIds(q[..i]))
      && failed == failed0 + OtherIds(q[..i]) && |pool.Contents()| + |FsIds(q[..i])| == size
    }

    method FetchNext(q: seq<Request>, i: nat, rdmaReq: array<Entry>, count: nat, batch: Option<nat>,
                     ghost failed0: seq<nat>, ghost size: nat)
      returns (count': nat, batch': Option<nat>)
      requires i < |q| && Dealt(q, i, rdmaReq, count, batch, failed0, size) && size > |FsIds(q)|
      requires Buildable(merge, q) && |AsyncRun(merge, QueueTransfers(Rounded, q))| < rdmaReq.Length
      modifies this`drain, this`acts, this`failed, recs, rdmaReq, pool`head, pool`taken, pool.data
      ensures pool.data == old(pool.data) && Dealt(q, i + 1, rdmaReq, count', batch', failed0, size)
    {
      BuildablePrefix(merge, q, i);
      Prefixes(Rounded, q, i);
      CountPrefix(q, i, failed0);
      PerRequestPrefix(q, i);
      count', batch' := FetchRequest(q[i], rdmaReq, count, batch, PerRequest(q[..i]), QueueTransfers(Rounded, q[..i]),
                                     FsIds(q[..i]));
    }

    method FetchAll(q: seq<Request>, rdmaReq: array<Entry>) returns (count: nat)
      requires Fetching(rdmaReq, 0, None, [], [], []) && |pool.Contents()| > |FsIds(q)|
      requires Buildable(merge, q) && |AsyncRun(merge, QueueTransfers(Rounded, q))| < rdmaReq.Length
      modifies this`drain, this`acts, this`failed, recs, rdmaReq, pool`head, pool`taken, pool.data
      ensures pool.data == old(pool.data)
      ensures Built(rdmaReq, count) && PoolOk() && drain.phase.Between?
      ensures Ts(drain.entries) == AsyncRun(merge, QueueTransfers(Rounded, q))
      ensures Reqs(drain) == FsIds(q) && Segs(drain) == PerRequest(q)
      ensures failed == old(failed) + OtherIds(q)
      ensures |pool.Contents()| == |old(pool.Contents())| - |FsIds(q)|
    {
      count := 0;
      var batch: Option<nat> := None;
      var i := 0;
      ghost var size := |pool.Contents()|;
      while i < |q|
        invariant i <= |q| && pool.data == old(pool.data)
        invariant Dealt(q, i, rdmaReq, count, batch, old(failed), size)
      {
        count, batch := FetchNext(q, i, rdmaReq, count, batch, old(failed), size);
        i := i + 1;
      }
      assert q[..i] == q;
    }

    /** rdma_op: posts the requests one by one, each tagged with its batch record. */
    method RdmaOp(rdmaReq: array<Entry>, n: nat)
      requires n <= rdmaReq.Length
      modifies this`sendq
      ensures sendq == old(sendq) + Tagged(ctx, rdmaReq[..n])
    {
      var i := 0;
      while i < n
        invariant i <= n && sendq == old(sendq) + Tagged(ctx, rdmaReq[..i])
      {
        assert Tagged(ctx, rdmaReq[..i + 1]) == Tagged(ctx, rdmaReq[..i]) + [TaggedWire(ctx, rdmaReq[i])];
        sendq := sendq + [TaggedWire(ctx, rdmaReq[i])];
        i := i + 1;
      }
    }

    /** The fetch loop from its start: a fresh drain. */
    method BuildAll(q: seq<Request>, rdmaReq: array<Entry>) returns (count: nat)
      requires pool.Valid() && Distinct(pool.Contents()) && forall r :: r in pool.Contents() ==> r < recs.Length
      requires |pool.Contents()| > |FsIds(q)|
      requires Buildable(merge, q) && |AsyncRun(merge, QueueTransfers(Rounded, q))| < rdmaReq.Length
      modifies this`drain, this`acts, this`origin, this`failed, recs, rdmaReq, pool`head, pool`taken, pool.data
      ensures origin == Stage(FreshDrain(merge), old(recs[..]), old(pool.Contents()))
      ensures Built(rdmaReq, count) && drain.phase.Between?
      ensures Ts(drain.entries) == AsyncRun(merge, QueueTransfers(Rounded, q))
      ensures Reqs(drain) == FsIds(q) && Segs(drain) == PerRequest(q)
      ensures failed == old(failed) + OtherIds(q)
    {
      drain := FreshDrain(merge);
      FreshSealed(merge, recs[..]);
      origin, acts := Stage(drain, recs[..], pool.Contents()), [];
      LeadsNowhere(origin);
      assert ClearOf(drain, pool.Contents(), recs.Length);
      count := FetchAll(q, rdmaReq);
    }

    /** Posts what was built, if anything. */
    method SubmitBuilt(rdmaReq: array<Entry>, count: nat)
      requires Built(rdmaReq, count) && drain.phase.Between?
      modifies this`drain, this`sendq
      ensures drain == old(drain).(phase := Posting, posted := |drain.entries|)
      ensures drain.(phase := Between, posted := 0) == old(drain)
      ensures DrainOk(drain, recs[..]) && Settled(drain) && DistinctRecs(drain)
      ensures sendq == old(sendq) + Tagged(ctx, drain.entries)
    {
      if count > 0 {
        RdmaOp(rdmaReq, count);
      } else {
        assert Tagged(ctx, drain.entries) == [];
      }
      SubmitAll(drain, recs[..]);
      drain := drain.(phase := Posting, posted := |drain.entries|);
    }

    /** rmem_request_async.  The drain it leaves behind is ready for the completion protocol, and the acts
        that built it can be replayed. */
    method RequestAsync(q: seq<Request>, rdmaReq: array<Entry>) returns (ghost posted: seq<Verbs.Wire>)
      requires pool.Valid() && Distinct(pool.Contents()) && forall r :: r in pool.Contents() ==> r < recs.Length
      requires |pool.Contents()| > |FsIds(q)|
      requires Buildable(merge, q) && |AsyncRun(merge, QueueTransfers(Rounded, q))| < rdmaReq.Length
      modifies this`drain, this`acts, this`origin, this`failed, this`sendq, recs, rdmaReq, pool`head, pool`taken, pool.data
      ensures DrainOk(drain, recs[..]) && Settled(drain) && DistinctRecs(drain)
      ensures drain.phase.Posting? && drain.posted == |drain.entries| && pool.Valid()
      ensures Replay(Stage(FreshDrain(merge), old(recs[..]), old(pool.Contents())), acts) ==
              Some(Stage(drain.(phase := Between, posted := 0), recs[..], pool.Contents()))
      ensures Ts(drain.entries) == AsyncRun(merge, QueueTransfers(Rounded, q))
      ensures Reqs(drain) == FsIds(q) && Segs(drain) == PerRequest(q)
      ensures sendq == old(sendq) + posted && Verbs.WrIds(posted) == Owners(drain.entries)
      ensures Verbs.Carried(posted) == AllAt(ctx.remVaddr, AsyncRun(merge, QueueTransfers(Rounded, q)))
      ensures failed == old(failed) + OtherIds(q)
    {
      var count := BuildAll(q, rdmaReq);
      LeadsReplays(origin, acts, Stage(drain, recs[..], pool.Contents()));
      PostedNames(drain);
      SubmitBuilt(rdmaReq, count);
      TaggedCarries(ctx, drain.entries);
      posted := Tagged(ctx, drain.entries);
    }
  }

  lemma CountPrefix(q: seq<Request>, i: nat, failed0: seq<nat>)
    requires i < |q|
    ensures |FsIds(q[..i + 1])| == |FsIds(q[..i])| + (if q[i].Fs? then 1 else 0) <= |FsIds(q)|
    ensures failed0 + OtherIds(q[..i + 1]) == failed0 + OtherIds(q[..i]) + (if q[i].Fs? then [] else [q[i].id])
  {
    Prefixes(Rounded, q, i);
    QueuePrefix(Rounded, q, i + 1);
  }

  function TaggedWire(ctx: Verbs.Context, e: Entry): Verbs.Wire {
    Verbs.MakeWire(ctx, At(ctx.remVaddr, e.t), e.owner)
  }

  function Tagged(ctx: Verbs.Context, es: seq<Entry>): (ws: seq<Verbs.Wire>)
    ensures |ws| == |es|
  {
    seq(|es|, i requires 0 <= i < |es| => TaggedWire(ctx, es[i]))
  }

  /** Posted entries carry their transfers to the remote region and name their records. */
  lemma TaggedCarries(ctx: Verbs.Context, es: seq<Entry>)
    ensures Verbs.Carried(Tagged(ctx, es)) == AllAt(ctx.remVaddr, Ts(es))
    ensures Verbs.WrIds(Tagged(ctx, es)) == Owners(es)
  {
  }

  function Owners(es: seq<Entry>): (os: seq<nat>)
    ensures |os| == |es|
  {
    seq(|es|, i requires 0 <= i < |es| => es[i].owner)
  }

  /** What the driver takes for granted: requests have segments and, where it merges, lengths add up below 2^32. */
  predicate Buildable(merge: bool, q: seq<Request>) {
    && (forall i :: 0 <= i < |q| && q[i].Fs? ==> BiosTransfers(Rounded, q[i].bios) != [])
    && AllSound(QueueTransfers(Rounded, q)) && (merge ==> Bytes(QueueTransfers(Rounded, q)) < U32)
  }

  lemma BuildablePrefix(merge: bool, q: seq<Request>, i: nat)
    requires Buildable(merge, q) && i < |q|
    ensures AllSound(QueueTransfers(Rounded, q[..i + 1])) && (merge ==> Bytes(QueueTransfers(Rounded, q[..i + 1])) < U32)
    ensures |AsyncRun(merge, QueueTransfers(Rounded, q[..i + 1]))| <= |AsyncRun(merge, QueueTransfers(Rounded, q))|
  {
    QueuePrefix(Rounded, q, i + 1);
    PrefixIsBuildable(merge, QueueTransfers(Rounded, q[..i + 1]), QueueTransfers(Rounded, q));
  }

  lemma {:induction false} PrefixIsBuildable(merge: bool, pre: seq<Transfer>, all: seq<Transfer>)
    requires pre <= all && AllSound(all)
    ensures AllSound(pre) && Bytes(pre) <= Bytes(all) && |AsyncRun(merge, pre)| <= |AsyncRun(merge, all)|
  {
    assert all == pre + all[|pre|..] && all[..|pre|] == pre;
    AllMovesConcat(pre, all[|pre|..]);
    AsyncRunGrows(merge, all, |pre|);
  }

  lemma FreshSealed(merge: bool, recs: seq<Record>)
    ensures Sealed(FreshDrain(merge), recs)
  {
    assert DrainOk(FreshDrain(merge), recs);
    Seal(FreshDrain(merge), recs);
  }

  lemma PostAllRecords(d: Drain, recs: seq<Record>, posted: nat)
    requires Recorded(d, recs) && Chained(d, recs)
    ensures Recorded(d.(posted := posted), recs) && Chained(d.(posted := posted), recs)
  {
  }

  lemma PostAllCounters(d: Drain)
    requires FirstOwns(d) && Counters(d) && Settled(d) && DistinctRecs(d) && d.phase.Posting? && Feasible(d)
    ensures var n := d.(posted := |d.entries|);
            FirstOwns(n) && Counters(n) && Settled(n) && DistinctRecs(n) && Feasible(n)
  {
  }

  lemma PostedNames(d: Drain)
    ensures var n := d.(phase := Posting, posted := |d.entries|); Reqs(n) == Reqs(d) && Segs(n) == Segs(d)
  {
  }

  lemma SubmitAll(d: Drain, recs: seq<Record>)
    requires Sealed(d, recs) && d.phase.Between?
    ensures var n := d.(phase := Posting, posted := |d.entries|);
            && DrainOk(n, recs) && Settled(n) && DistinctRecs(n)
            && n.(phase := Between, posted := 0) == d
  {
    Unseal(d, recs);
    SubmittedOk(d, recs);
    PostAllRecords(Submitted(d), recs, |d.entries|);
    PostAllCounters(Submitted(d));
    SameBuild(Submitted(d), d.(phase := Posting, posted := |d.entries|));
  }

  /** The transfers of each request of a drain, as far as they have been built. */
  function Segs(d: Drain): (ss: seq<seq<Transfer>>)
    ensures |ss| == |d.items|
  {
    seq(|d.items|, k requires 0 <= k < |d.items| => d.items[k].segs)
  }

  lemma SegsOfFetched(d: Drain, req: nat, rec: nat, segs: seq<Transfer>)
    ensures Segs(Fetched(d, req, rec, segs)) == Segs(d) + [segs[..0]]
  {
  }

  lemma SegmentDone(d: Drain, done: seq<seq<Transfer>>, all: seq<Transfer>, p: nat)
    requires p < |all| && d.phase == InRequest(all[p..]) && d.items != [] && Segs(d) == done + [all[..p]]
    ensures Segs(Segmented(d)) == done + [all[..p + 1]]
  {
    var n := Segmented(d);
    assert Last(d).segs == Segs(d)[|done|];
    assert all[..p] + [all[p..][0]] == all[..p + 1];
    forall k | 0 <= k < |d.items| ensures Segs(n)[k] == (done + [all[..p + 1]])[k] {
      assert k < |done| ==> Segs(d)[k] == done[k];
    }
  }

  lemma StreamSplits(merge: bool, seen: seq<Transfer>, all: seq<Transfer>)
    requires AllSound(seen + all) && (merge ==> Bytes(seen + all) < U32)
    ensures AllSound(all) && (merge ==> Bytes(AsyncRun(merge, seen)) + Bytes(all) < U32)
  {
    assert forall i :: 0 <= i < |seen| ==> seen[i] == (seen + all)[i];
    assert forall i :: 0 <= i < |all| ==> all[i] == (seen + all)[|seen| + i];
    AllMovesConcat(seen, all);
    AsyncRunKeepsMoves(merge, seen);
  }

  /** Request `id` with record `rec` comes after the requests of `d0`. */
  ghost predicate Follows(d0: Drain, d: Drain, id: nat, rec: nat) {
    && Reqs(d) == Reqs(d0) + [id] && d.items != [] && Last(d).rec == rec
    && (|d.items| >= 2 <==> d0.items != [])
    && (d0.items != [] ==> |d.items| >= 2 && d.items[|d.items| - 2].rec == Last(d0).rec)
  }

  /** Names of requests and records after a fetch and a walk. */
  lemma FetchedNames(d0: Drain, d1: Drain, d2: Drain, id: nat, rec: nat, contents: seq<nat>, n: nat)
    requires d1.items == d0.items + [Item(id, rec, [], |d0.entries|, |d0.entries|)] && d1.ended == d0.ended
    requires Held(d1) == Held(d2) && Clear(d1, contents, n)
    ensures Follows(d0, d2, id, rec) && Clear(d2, contents, n)
  {
    assert Key(0);
    HeldSame(d1, d2);
    forall r | r in contents ensures r < n && Foreign(d2, r) {
      assert Foreign(d1, r);
    }
  }

  lemma FinishedNames(d: Drain, contents: seq<nat>, n: nat)
    requires Clear(d, contents, n)
    ensures Clear(Finished(d), contents, n) && Reqs(Finished(d)) == Reqs(d) && Segs(Finished(d)) == Segs(d)
  {
    assert Key(0);
    forall r | r in contents ensures r < n && Foreign(Finished(d), r) {
      assert Foreign(d, r);
    }
  }

  lemma NothingYet(seen: seq<Transfer>, all: seq<Transfer>)
    ensures all[0..] == all && seen + all[..0] == seen
  {
  }

  /** The requests and records of a drain, and how many of them were ended. */
  function Held(d: Drain): (seq<nat>, seq<nat>, nat) {
    (Reqs(d), seq(|d.items|, k requires 0 <= k < |d.items| => d.items[k].rec), d.ended)
  }

  lemma HeldSame(a: Drain, b: Drain)
    requires Held(a) == Held(b)
    ensures SameHeld(a, b)
  {
    assert |Held(a).0| == |a.items| && |Held(b).0| == |b.items|;
    forall k | 0 <= k < |a.items| ensures b.items[k].rec == a.items[k].rec && b.items[k].req == a.items[k].req {
      assert Held(a).0[k] == a.items[k].req && Held(a).1[k] == a.items[k].rec;
      assert Held(b).0[k] == b.items[k].req && Held(b).1[k] == b.items[k].rec;
    }
  }

  lemma HeldLast(a: Drain, b: Drain)
    requires Held(a) == Held(b) && a.items != []
    ensures b.items != [] && Last(b).rec == Last(a).rec
  {
    HeldSame(a, b);
  }

  lemma SegmentedHeld(d: Drain)
    requires d.phase.InRequest? && d.phase.left != [] && d.items != []
    ensures Held(Segmented(d)) == Held(d)
  {
    var n := Segmented(d);
    assert Held(n).0 == Held(d).0 && Held(n).1 == Held(d).1;
  }

  lemma {:induction false} AsyncRunGrows(merge: bool, ts: seq<Transfer>, n: nat)
    requires n <= |ts|
    ensures |AsyncRun(merge, ts[..n])| <= |AsyncRun(merge, ts)|
    decreases |ts| - n
  {
    if n == |ts| {
      assert ts[..n] == ts;
    } else {
      assert ts[..n + 1][..n] == ts[..n];
      AsyncRunGrows(merge, ts, n + 1);
    }
  }

  lemma WholeSeq(all: seq<Transfer>)
    ensures all[|all|..] == [] && all[..|all|] == all
  {
  }

  /** What taking the next segment does to the run and to what is left. */
  lemma {:induction false} SegmentSeen(merge: bool, seen: seq<Transfer>, all: seq<Transfer>, p: nat)
    requires p < |all|
    ensures AsyncRun(merge, seen + all[..p + 1]) == Coalesce(merge, AsyncRun(merge, seen + all[..p]), all[p])
    ensures |AsyncRun(merge, seen + all[..p])| <= |AsyncRun(merge, seen + all)|
    ensures all[p..][0] == all[p] && all[p..][1..] == all[p + 1..]
  {
    NextSeen(merge, seen, all, p);
    AsyncRunGrows(merge, seen + all, |seen| + p);
    PrefixOfBoth(seen, all, p);
  }

  lemma {:induction false} NextSeen(merge: bool, seen: seq<Transfer>, all: seq<Transfer>, p: nat)
    requires p < |all|
    ensures AsyncRun(merge, seen + all[..p + 1]) == Coalesce(merge, AsyncRun(merge, seen + all[..p]), all[p])
  {
    OneMore(seen, all, p);
    RunOneMore(merge, seen + all[..p], seen + all[..p + 1], all[p]);
  }

  lemma OneMore(seen: seq<Transfer>, all: seq<Transfer>, p: nat)
    requires p < |all|
    ensures seen + all[..p + 1] == (seen + all[..p]) + [all[p]]
  {
  }

  lemma PrefixOfBoth(seen: seq<Transfer>, all: seq<Transfer>, p: nat)
    requires p <= |all|
    ensures (seen + all)[..|seen| + p] == seen + all[..p]
  {
  }
}
