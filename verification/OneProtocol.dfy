/**
 MODE_ONE as interleaved steps: rmem_request_one posts each work request as soon as the next segment
 cannot be merged into it, while comp_handler_send counts completions of the same request.

 A submission is one request on its way.  The handler's test is not atomic: it counts, then compares
 `outstanding_reqs` with `comp_reqs`, then reads `all_request_sent`, and the submitter may run in
 between.  `handled`, `ended` and the submission number in a wire are history.
 */
module OneProtocol {
  import opened Transfers
  import opened Batching
  import opened RingPool

  datatype Record = Record(req: nat, outstanding: int, comp: int, allSent: bool)

  /** Flushing: outstanding_reqs was raised for `t`, the pending transfer is about to be posted. */
  datatype Pc = Segments | Flushing(t: Transfer) | Marked | Done

  datatype Submission = Submission(req: nat, rec: nat, segs: seq<Transfer>, at: nat, pending: Option<Transfer>,
                                   sent: seq<Transfer>, pc: Pc, handled: nat, ended: bool)

  datatype Wire = Wire(sub: nat, rec: nat)

  datatype Handler = Ready | Counted(rec: nat, sub: nat) | Matched(rec: nat, sub: nat) | Ending(rec: nat, sub: nat)

  datatype State = State(recs: seq<Record>, free: seq<nat>, subs: seq<Submission>, wires: seq<Wire>,
                         handler: Handler, log: seq<nat>, holder: map<nat, nat>, fetchedAs: map<nat, nat>)

  datatype Step =
    | Fetch(req: nat, segs: seq<Transfer>)
    | Segment(i: nat)
    | Flush(i: nat)
    | Mark(i: nat)
    | PostLast(i: nat)
    | Reap
    | Compare
    | Check
    | End

  predicate Initial(s: State) {
    && |s.free| == |s.recs| && (forall i :: 0 <= i < |s.free| ==> s.free[i] == i)
    && s.subs == [] && s.wires == [] && s.handler == Ready
    && s.log == [] && s.holder == map[] && s.fetchedAs == map[]
  }

  predicate Enabled(s: State, st: Step) {
    match st
    case Fetch(req, segs) =>
      && |s.free| >= 2 && s.free[0] < |s.recs| && req !in s.fetchedAs
      && segs != [] && AllSound(segs) && Bytes(segs) < U32
    case Segment(i) => i < |s.subs| && s.subs[i].pc.Segments? && s.subs[i].at < |s.subs[i].segs| && s.subs[i].rec < |s.recs|
    case Flush(i) => i < |s.subs| && s.subs[i].pc.Flushing? && s.subs[i].pending.Some?
    case Mark(i) => i < |s.subs| && s.subs[i].pc.Segments? && s.subs[i].at == |s.subs[i].segs| && s.subs[i].rec < |s.recs|
    case PostLast(i) => i < |s.subs| && s.subs[i].pc.Marked? && s.subs[i].pending.Some?
    case Reap => s.handler.Ready? && s.wires != [] && s.wires[0].rec < |s.recs| && s.wires[0].sub < |s.subs|
    case Compare => s.handler.Counted? && s.handler.rec < |s.recs|
    case Check => s.handler.Matched? && s.handler.rec < |s.recs|
    case End => s.handler.Ending? && s.handler.rec < |s.recs| && s.handler.sub < |s.subs|
  }

  function Raised(recs: seq<Record>, rec: nat): seq<Record>
    requires rec < |recs|
  {
    recs[rec := recs[rec].(outstanding := recs[rec].outstanding + 1)]
  }

  /** The submission after looking at its next segment. */
  function Looked(u: Submission): Submission
    requires u.at < |u.segs|
  {
    var t := u.segs[u.at];
    match u.pending
    case None => u.(pending := Some(t), at := u.at + 1)
    case Some(p) => if Mergeable(p, t) then u.(pending := Some(Merged(p, t)), at := u.at + 1) else u.(pc := Flushing(t))
  }

  predicate MergesNext(u: Submission)
    requires u.at < |u.segs|
  {
    u.pending.Some? && Mergeable(u.pending.value, u.segs[u.at])
  }

  function Flushed1(u: Submission): Submission
    requires u.pc.Flushing? && u.pending.Some?
  {
    u.(sent := u.sent + [u.pending.value], pending := Some(u.pc.t), at := u.at + 1, pc := Segments)
  }

  function PostedLast(u: Submission): Submission
    requires u.pending.Some?
  {
    u.(sent := u.sent + [u.pending.value], pending := None, pc := Done)
  }

  function Apply(s: State, st: Step): State
    requires Enabled(s, st)
  {
    match st
    case Fetch(req, segs) =>
      var rec := s.free[0];
      s.(free := s.free[1..], recs := s.recs[rec := Record(req, 0, 0, false)],
         subs := s.subs + [Submission(req, rec, segs, 0, None, [], Segments, 0, false)],
         holder := s.holder[rec := |s.subs|], fetchedAs := s.fetchedAs[req := |s.subs|])
    case Segment(i) =>
      var u := s.subs[i];
      s.(subs := s.subs[i := Looked(u)], recs := if MergesNext(u) then s.recs else Raised(s.recs, u.rec))
    case Flush(i) =>
      s.(subs := s.subs[i := Flushed1(s.subs[i])], wires := s.wires + [Wire(i, s.subs[i].rec)])
    case Mark(i) =>
      var u := s.subs[i];
      s.(subs := s.subs[i := u.(pc := Marked)], recs := s.recs[u.rec := s.recs[u.rec].(allSent := true)])
    case PostLast(i) =>
      s.(subs := s.subs[i := PostedLast(s.subs[i])], wires := s.wires + [Wire(i, s.subs[i].rec)])
    case Reap =>
      var w := s.wires[0];
      s.(wires := s.wires[1..], recs := s.recs[w.rec := s.recs[w.rec].(comp := s.recs[w.rec].comp + 1)],
         subs := s.subs[w.sub := s.subs[w.sub].(handled := s.subs[w.sub].handled + 1)],
         handler := Counted(w.rec, w.sub))
    case Compare =>
      var rec, sub := s.handler.rec, s.handler.sub;
      s.(handler := if s.recs[rec].outstanding == s.recs[rec].comp then Matched(rec, sub) else Ready)
    case Check =>
      var rec, sub := s.handler.rec, s.handler.sub;
      s.(handler := if s.recs[rec].allSent then Ending(rec, sub) else Ready)
    case End =>
      var rec, sub := s.handler.rec, s.handler.sub;
      s.(log := s.log + [s.recs[rec].req], free := s.free + [rec], holder := s.holder - {rec},
         subs := s.subs[sub := s.subs[sub].(ended := true)], handler := Ready)
  }

  // ---------------------------------------------------------------- invariant of one submission

  /** What the submitter has built so far: the posted transfers and the pending one. */
  function Built(u: Submission): seq<Transfer> {
    if u.pending.Some? then u.sent + [u.pending.value] else u.sent
  }

  /** outstanding_reqs runs ahead of the posts until the last one. */
  function Announced(u: Submission): nat {
    |Built(u)| + (if u.pc.Flushing? then 1 else 0)
  }

  predicate BuildOk(u: Submission) {
    && u.segs != [] && AllSound(u.segs) && Bytes(u.segs) < U32
    && u.at <= |u.segs| && Built(u) == AsyncRun(true, u.segs[..u.at])
    && (match u.pc
        case Segments => u.pending.Some? <==> u.at > 0
        case Flushing(t) => u.pending.Some? && u.at < |u.segs| && t == u.segs[u.at] && !Mergeable(u.pending.value, t)
        case Marked => u.pending.Some? && u.at == |u.segs|
        case Done => u.pending.None? && u.at == |u.segs| && u.sent != [])
  }

  predicate Complete(u: Submission) {
    u.pc.Done? && u.handled == |u.sent|
  }

  predicate CountOk(u: Submission, recs: seq<Record>) {
    && u.handled <= |u.sent|
    && (u.ended ==> Complete(u))
    && (!u.ended ==> u.rec < |recs| &&
                     recs[u.rec] == Record(u.req, Announced(u), u.handled, u.pc.Marked? || u.pc.Done?))
  }

  predicate SubOk(u: Submission, recs: seq<Record>) {
    BuildOk(u) && CountOk(u, recs)
  }

  lemma LookedOk(u: Submission)
    requires BuildOk(u) && u.pc.Segments? && u.at < |u.segs|
    ensures BuildOk(Looked(u))
    ensures Announced(Looked(u)) == Announced(u) + (if MergesNext(u) then 0 else 1)
  {
    RunOneMore(true, u.segs[..u.at], u.segs[..u.at + 1], u.segs[u.at]);
    if u.pending.None? || MergesNext(u) {
      LookedBuilds(u);
    }
  }

  lemma LookedBuilds(u: Submission)
    requires u.at < |u.segs| && (u.pending.None? ==> u.sent == []) && (u.pending.None? || MergesNext(u))
    ensures Built(Looked(u)) == Coalesce(true, Built(u), u.segs[u.at])
    ensures |Built(Looked(u))| == |Built(u)| + (if MergesNext(u) then 0 else 1)
  {
    if u.pending.Some? {
      assert Built(u)[..|u.sent|] == u.sent;
    }
  }

  lemma FlushedOk(u: Submission)
    requires BuildOk(u) && u.pc.Flushing?
    ensures BuildOk(Flushed1(u)) && Announced(Flushed1(u)) == Announced(u)
  {
    RunOneMore(true, u.segs[..u.at], u.segs[..u.at + 1], u.segs[u.at]);
  }

  /** Until the last post, the counter the handler compares with exceeds the number of posts. */
  lemma CounterRunsAhead(u: Submission)
    requires BuildOk(u)
    ensures !u.pc.Done? <==> (u.pc.Segments? && u.at == 0) || Announced(u) > |u.sent|
    ensures u.pc.Done? ==> Announced(u) == |u.sent| && AllMoves(u.sent) == AllMoves(u.segs)
  {
    if u.pc.Done? {
      assert u.segs[..u.at] == u.segs;
      AsyncRunKeepsMoves(true, u.segs);
    }
  }

  // ---------------------------------------------------------------- the global invariant

  ghost predicate SubsOk(subs: seq<Submission>, recs: seq<Record>) {
    forall i {:trigger SubOk(subs[i], recs)} :: 0 <= i < |subs| ==> SubOk(subs[i], recs)
  }

  ghost predicate HolderOk(subs: seq<Submission>, holder: map<nat, nat>) {
    && (forall i :: 0 <= i < |subs| && !subs[i].ended ==> subs[i].rec in holder && holder[subs[i].rec] == i)
    && (forall r :: r in holder ==> holder[r] < |subs| && !subs[holder[r]].ended && subs[holder[r]].rec == r)
  }

  ghost predicate FreeOk(free: seq<nat>, n: nat, holder: map<nat, nat>) {
    && Distinct(free)
    && (forall r: nat :: r in free <==> r < n && r !in holder)
    && (forall r :: r in holder ==> r < n)
  }

  function Count(q: seq<Wire>, i: nat): nat {
    if q == [] then 0 else (if q[0].sub == i then 1 else 0) + Count(q[1..], i)
  }

  /** The queue holds exactly the posted, unreaped work requests of every submission. */
  ghost predicate WiresOk(subs: seq<Submission>, q: seq<Wire>) {
    && (forall x :: 0 <= x < |q| ==> q[x].sub < |subs| && q[x].rec == subs[q[x].sub].rec)
    && (forall i {:trigger Count(q, i)} :: 0 <= i < |subs| ==> Count(q, i) == |subs[i].sent| - subs[i].handled)
  }

  ghost predicate Settled(u: Submission) {
    !u.ended ==> !Complete(u)
  }

  ghost predicate HandlerOk(subs: seq<Submission>, h: Handler) {
    match h
    case Ready => forall i {:trigger Settled(subs[i])} :: 0 <= i < |subs| ==> Settled(subs[i])
    case Counted(rec, sub) =>
      && sub < |subs| && subs[sub].rec == rec && !subs[sub].ended && subs[sub].handled >= 1
      && forall i {:trigger Settled(subs[i])} :: 0 <= i < |subs| && i != sub ==> Settled(subs[i])
    case Matched(rec, sub) =>
      && sub < |subs| && subs[sub].rec == rec && !subs[sub].ended && Complete(subs[sub])
      && forall i {:trigger Settled(subs[i])} :: 0 <= i < |subs| && i != sub ==> Settled(subs[i])
    case Ending(rec, sub) =>
      && sub < |subs| && subs[sub].rec == rec && !subs[sub].ended && Complete(subs[sub])
      && forall i {:trigger Settled(subs[i])} :: 0 <= i < |subs| && i != sub ==> Settled(subs[i])
  }

  ghost predicate LogOk(subs: seq<Submission>, fetchedAs: map<nat, nat>, log: seq<nat>) {
    && (forall i :: 0 <= i < |subs| ==> subs[i].req in fetchedAs && fetchedAs[subs[i].req] == i)
    && (forall r :: r in fetchedAs ==> fetchedAs[r] < |subs| && subs[fetchedAs[r]].req == r)
    && (forall r :: r in log <==> r in fetchedAs && subs[fetchedAs[r]].ended)
    && Distinct(log)
  }

  ghost predicate Inv(s: State) {
    && SubsOk(s.subs, s.recs)
    && HolderOk(s.subs, s.holder)
    && FreeOk(s.free, |s.recs|, s.holder)
    && WiresOk(s.subs, s.wires)
    && HandlerOk(s.subs, s.handler)
    && LogOk(s.subs, s.fetchedAs, s.log)
  }

  // ---------------------------------------------------------------- steps

  lemma {:induction false} CountSnoc(q: seq<Wire>, w: Wire, i: nat)
    ensures Count(q + [w], i) == Count(q, i) + (if w.sub == i then 1 else 0)
  {
    if q == [] {
      assert (q + [w])[1..] == [];
    } else {
      assert (q + [w])[0] == q[0] && (q + [w])[1..] == q[1..] + [w];
      CountSnoc(q[1..], w, i);
    }
  }

  lemma {:induction false} CountNone(q: seq<Wire>, i: nat)
    requires forall x :: 0 <= x < |q| ==> q[x].sub != i
    ensures Count(q, i) == 0
  {
    if q != [] {
      CountNone(q[1..], i);
    }
  }

  /** One submission and a record held by no other unended submission change. */
  lemma OneSubChanges(subs: seq<Submission>, recs: seq<Record>, i: nat, u: Submission, rec: nat, r: Record)
    requires SubsOk(subs, recs) && i < |subs| && rec < |recs|
    requires forall j :: 0 <= j < |subs| && j != i && !subs[j].ended ==> subs[j].rec != rec
    requires SubOk(u, recs[rec := r])
    ensures SubsOk(subs[i := u], recs[rec := r])
  {
    var now := subs[i := u];
    forall j | 0 <= j < |now| ensures SubOk(now[j], recs[rec := r]) {
      if j != i {
        assert SubOk(subs[j], recs);
      }
    }
  }

  /** Two versions of a submission that are the same to the pool and the log. */
  predicate SameName(u: Submission, v: Submission) {
    v.req == u.req && v.rec == u.rec && v.ended == u.ended
  }

  lemma SameNameKeeps(s: State, i: nat, v: Submission)
    requires i < |s.subs| && SameName(s.subs[i], v)
    requires HolderOk(s.subs, s.holder) && LogOk(s.subs, s.fetchedAs, s.log)
    ensures HolderOk(s.subs[i := v], s.holder) && LogOk(s.subs[i := v], s.fetchedAs, s.log)
  {
  }

  lemma FetchKeepsPool(s: State, req: nat, segs: seq<Transfer>)
    requires HolderOk(s.subs, s.holder) && FreeOk(s.free, |s.recs|, s.holder) && Enabled(s, Fetch(req, segs))
    ensures var t := Apply(s, Fetch(req, segs)); HolderOk(t.subs, t.holder) && FreeOk(t.free, |t.recs|, t.holder)
  {
    var t := Apply(s, Fetch(req, segs));
    var rec := s.free[0];
    assert rec in s.free && rec !in s.holder;
    assert s.free == [rec] + t.free;
    forall r: nat ensures r in t.free <==> r < |t.recs| && r !in t.holder {
      assert r in s.free <==> r == rec || r in t.free;
    }
  }

  lemma FetchKeepsLog(s: State, req: nat, segs: seq<Transfer>)
    requires LogOk(s.subs, s.fetchedAs, s.log) && Enabled(s, Fetch(req, segs))
    ensures var t := Apply(s, Fetch(req, segs)); LogOk(t.subs, t.fetchedAs, t.log)
  {
  }

  lemma FetchKeepsSubs(s: State, req: nat, segs: seq<Transfer>)
    requires SubsOk(s.subs, s.recs) && HolderOk(s.subs, s.holder) && FreeOk(s.free, |s.recs|, s.holder)
    requires Enabled(s, Fetch(req, segs))
    ensures var t := Apply(s, Fetch(req, segs)); SubsOk(t.subs, t.recs)
  {
    var t := Apply(s, Fetch(req, segs));
    assert s.free[0] in s.free;
    assert segs[..0] == [];
    forall j | 0 <= j < |t.subs| ensures SubOk(t.subs[j], t.recs) {
      if j < |s.subs| {
        assert SubOk(s.subs[j], s.recs);
      }
    }
  }

  lemma FetchKeepsWires(s: State, req: nat, segs: seq<Transfer>)
    requires WiresOk(s.subs, s.wires) && HandlerOk(s.subs, s.handler) && Enabled(s, Fetch(req, segs))
    ensures var t := Apply(s, Fetch(req, segs)); WiresOk(t.subs, t.wires) && HandlerOk(t.subs, t.handler)
  {
    var t := Apply(s, Fetch(req, segs));
    CountNone(s.wires, |s.subs|);
    forall j | 0 <= j < |s.subs| ensures t.subs[j] == s.subs[j] && (Settled(s.subs[j]) ==> Settled(t.subs[j])) {
    }
    assert Settled(t.subs[|s.subs|]);
  }

  lemma FetchKeepsInv(s: State, req: nat, segs: seq<Transfer>)
    requires Inv(s) && Enabled(s, Fetch(req, segs))
    ensures Inv(Apply(s, Fetch(req, segs)))
  {
    FetchKeepsPool(s, req, segs);
    FetchKeepsLog(s, req, segs);
    FetchKeepsSubs(s, req, segs);
    FetchKeepsWires(s, req, segs);
  }

  lemma OthersHoldOthers(s: State, i: nat)
    requires HolderOk(s.subs, s.holder) && i < |s.subs| && !s.subs[i].ended
    ensures forall j :: 0 <= j < |s.subs| && j != i && !s.subs[j].ended ==> s.subs[j].rec != s.subs[i].rec
  {
  }

  /** The submitter changes its own submission and record without posting. */
  lemma QuietSubmitter(s: State, i: nat, v: Submission, r: Record)
    requires Inv(s) && i < |s.subs| && !s.subs[i].ended && s.subs[i].rec < |s.recs|
    requires SameName(s.subs[i], v) && v.sent == s.subs[i].sent && v.handled == s.subs[i].handled
    requires !s.subs[i].pc.Done? && !v.pc.Done?
    requires SubOk(v, s.recs[s.subs[i].rec := r])
    ensures Inv(s.(subs := s.subs[i := v], recs := s.recs[s.subs[i].rec := r]))
  {
    OthersHoldOthers(s, i);
    OneSubChanges(s.subs, s.recs, i, v, s.subs[i].rec, r);
    SameNameKeeps(s, i, v);
    var subs := s.subs[i := v];
    forall j | 0 <= j < |subs| ensures Settled(s.subs[j]) ==> Settled(subs[j]) {
    }
  }

  /** The submitter posts one transfer. */
  lemma PostingSubmitter(s: State, i: nat, v: Submission)
    requires Inv(s) && i < |s.subs| && !s.subs[i].ended
    requires SameName(s.subs[i], v) && |v.sent| == |s.subs[i].sent| + 1 && v.handled == s.subs[i].handled
    requires !s.subs[i].pc.Done?
    requires SubOk(v, s.recs)
    ensures Inv(s.(subs := s.subs[i := v], wires := s.wires + [Wire(i, s.subs[i].rec)]))
  {
    var subs, w := s.subs[i := v], Wire(i, s.subs[i].rec);
    assert SubOk(s.subs[i], s.recs);
    OthersHoldOthers(s, i);
    OneSubChanges(s.subs, s.recs, i, v, s.subs[i].rec, s.recs[s.subs[i].rec]);
    assert s.recs[s.subs[i].rec := s.recs[s.subs[i].rec]] == s.recs;
    SameNameKeeps(s, i, v);
    PostKeepsWires(s, i, v);
    forall j | 0 <= j < |subs| ensures Settled(s.subs[j]) ==> Settled(subs[j]) {
    }
  }

  lemma PostKeepsWires(s: State, i: nat, v: Submission)
    requires WiresOk(s.subs, s.wires) && i < |s.subs|
    requires v.rec == s.subs[i].rec && |v.sent| == |s.subs[i].sent| + 1 && v.handled == s.subs[i].handled
    ensures WiresOk(s.subs[i := v], s.wires + [Wire(i, s.subs[i].rec)])
  {
    var subs, q := s.subs[i := v], s.wires + [Wire(i, s.subs[i].rec)];
    forall j | 0 <= j < |subs| ensures Count(q, j) == |subs[j].sent| - subs[j].handled {
      CountSnoc(s.wires, Wire(i, s.subs[i].rec), j);
    }
  }

  lemma SegmentKeepsInv(s: State, i: nat)
    requires Inv(s) && Enabled(s, Segment(i))
    ensures Inv(Apply(s, Segment(i)))
  {
    var u, t := s.subs[i], Apply(s, Segment(i));
    assert SubOk(u, s.recs);
    LookedOk(u);
    assert t.recs == s.recs[u.rec := t.recs[u.rec]];
    QuietSubmitter(s, i, Looked(u), t.recs[u.rec]);
  }

  lemma FlushKeepsInv(s: State, i: nat)
    requires Inv(s) && Enabled(s, Flush(i))
    ensures Inv(Apply(s, Flush(i)))
  {
    assert SubOk(s.subs[i], s.recs);
    FlushedOk(s.subs[i]);
    PostingSubmitter(s, i, Flushed1(s.subs[i]));
  }

  lemma MarkKeepsInv(s: State, i: nat)
    requires Inv(s) && Enabled(s, Mark(i))
    ensures Inv(Apply(s, Mark(i)))
  {
    var u := s.subs[i];
    assert SubOk(u, s.recs);
    QuietSubmitter(s, i, u.(pc := Marked), s.recs[u.rec].(allSent := true));
  }

  lemma PostLastKeepsInv(s: State, i: nat)
    requires Inv(s) && Enabled(s, PostLast(i))
    ensures Inv(Apply(s, PostLast(i)))
  {
    assert SubOk(s.subs[i], s.recs);
    PostingSubmitter(s, i, PostedLast(s.subs[i]));
  }

  lemma ReapKeepsWires(s: State)
    requires WiresOk(s.subs, s.wires) && Enabled(s, Reap)
    ensures var t := Apply(s, Reap); WiresOk(t.subs, t.wires)
    ensures s.subs[s.wires[0].sub].handled < |s.subs[s.wires[0].sub].sent|
  {
    var t, i := Apply(s, Reap), s.wires[0].sub;
    assert Count(s.wires, i) >= 1;
    forall j | 0 <= j < |t.subs| ensures Count(t.wires, j) == |t.subs[j].sent| - t.subs[j].handled {
      assert Count(s.wires, j) == (if i == j then 1 else 0) + Count(t.wires, j);
    }
  }

  /** The head of the queue belongs to a submission that is not complete, hence not ended. */
  lemma ReapedIsOpen(s: State)
    requires SubsOk(s.subs, s.recs) && WiresOk(s.subs, s.wires) && s.wires != []
    ensures s.wires[0].sub < |s.subs| && s.wires[0].rec == s.subs[s.wires[0].sub].rec < |s.recs|
    ensures !s.subs[s.wires[0].sub].ended && s.subs[s.wires[0].sub].handled < |s.subs[s.wires[0].sub].sent|
  {
    var i := s.wires[0].sub;
    assert Count(s.wires, i) >= 1;
    assert SubOk(s.subs[i], s.recs);
  }

  lemma ReapKeepsInv(s: State)
    requires Inv(s) && Enabled(s, Reap)
    ensures Inv(Apply(s, Reap))
  {
    var t, i := Apply(s, Reap), s.wires[0].sub;
    var v, rec := t.subs[i], s.wires[0].rec;
    ReapedIsOpen(s);
    ReapKeepsWires(s);
    OthersHoldOthers(s, i);
    assert SubOk(s.subs[i], s.recs);
    OneSubChanges(s.subs, s.recs, i, v, rec, t.recs[rec]);
    SameNameKeeps(s, i, v);
    forall j | 0 <= j < |t.subs| && j != i ensures Settled(t.subs[j]) {
      assert Settled(s.subs[j]);
    }
  }

  /** The comparison succeeds exactly when the submission is complete, whatever ran in between. */
  lemma CompareIsExact(s: State)
    requires Inv(s) && s.handler.Counted?
    ensures s.handler.rec < |s.recs|
    ensures s.recs[s.handler.rec].outstanding == s.recs[s.handler.rec].comp <==> Complete(s.subs[s.handler.sub])
  {
    var u := s.subs[s.handler.sub];
    assert SubOk(u, s.recs);
    CounterRunsAhead(u);
  }

  lemma CompareKeepsInv(s: State)
    requires Inv(s) && Enabled(s, Compare)
    ensures Inv(Apply(s, Compare))
  {
    CompareIsExact(s);
    assert Settled(s.subs[s.handler.sub]) <==> !Complete(s.subs[s.handler.sub]);
  }

  /** By the time the comparison has succeeded, all_request_sent is set. */
  lemma CheckAlwaysSucceeds(s: State)
    requires Inv(s) && s.handler.Matched?
    ensures s.handler.rec < |s.recs| && s.recs[s.handler.rec].allSent
  {
    assert SubOk(s.subs[s.handler.sub], s.recs);
  }

  lemma CheckKeepsInv(s: State)
    requires Inv(s) && Enabled(s, Check)
    ensures Inv(Apply(s, Check))
  {
    CheckAlwaysSucceeds(s);
  }

  lemma EndKeepsPool(s: State)
    requires HolderOk(s.subs, s.holder) && FreeOk(s.free, |s.recs|, s.holder) && HandlerOk(s.subs, s.handler)
    requires Enabled(s, End)
    ensures var t := Apply(s, End); HolderOk(t.subs, t.holder) && FreeOk(t.free, |t.recs|, t.holder)
  {
    var t := Apply(s, End);
    assert s.holder[s.handler.rec] == s.handler.sub;
    assert s.handler.rec !in s.free;
  }

  lemma EndKeepsLog(s: State)
    requires LogOk(s.subs, s.fetchedAs, s.log) && HandlerOk(s.subs, s.handler) && Enabled(s, End)
    requires s.recs[s.handler.rec].req == s.subs[s.handler.sub].req
    ensures var t := Apply(s, End); LogOk(t.subs, t.fetchedAs, t.log)
  {
    var t, req := Apply(s, End), s.recs[s.handler.rec].req;
    assert req !in s.log;
    forall r ensures r in t.log <==> r in t.fetchedAs && t.subs[t.fetchedAs[r]].ended {
      assert r in t.log <==> r in s.log || r == req;
    }
  }

  lemma EndKeepsSubs(s: State)
    requires SubsOk(s.subs, s.recs) && HandlerOk(s.subs, s.handler) && Enabled(s, End)
    ensures var t := Apply(s, End); SubsOk(t.subs, t.recs) && HandlerOk(t.subs, t.handler)
    ensures s.recs[s.handler.rec].req == s.subs[s.handler.sub].req
  {
    var t, i := Apply(s, End), s.handler.sub;
    assert SubOk(s.subs[i], s.recs);
    forall j | 0 <= j < |t.subs| ensures SubOk(t.subs[j], t.recs) {
      assert SubOk(s.subs[j], s.recs);
    }
    forall j | 0 <= j < |t.subs| ensures Settled(t.subs[j]) {
      assert j != i ==> Settled(s.subs[j]);
    }
  }

  lemma EndKeepsWires(s: State)
    requires WiresOk(s.subs, s.wires) && Enabled(s, End)
    ensures var t := Apply(s, End); WiresOk(t.subs, t.wires)
  {
  }

  lemma EndKeepsInv(s: State)
    requires Inv(s) && Enabled(s, End)
    ensures Inv(Apply(s, End))
  {
    EndKeepsSubs(s);
    EndKeepsPool(s);
    EndKeepsLog(s);
    EndKeepsWires(s);
  }

  // ---------------------------------------------------------------- whole runs

  lemma StepKeepsInv(s: State, st: Step)
    requires Inv(s) && Enabled(s, st)
    ensures Inv(Apply(s, st))
  {
    match st {
      case Fetch(req, segs) => FetchKeepsInv(s, req, segs);
      case Segment(i) => SegmentKeepsInv(s, i);
      case Flush(i) => FlushKeepsInv(s, i);
      case Mark(i) => MarkKeepsInv(s, i);
      case PostLast(i) => PostLastKeepsInv(s, i);
      case Reap => ReapKeepsInv(s);
      case Compare => CompareKeepsInv(s);
      case Check => CheckKeepsInv(s);
      case End => EndKeepsInv(s);
    }
  }

  lemma InitialInv(s: State)
    requires Initial(s)
    ensures Inv(s)
  {
    forall r: nat ensures r in s.free <==> r < |s.recs| && r !in s.holder {
      if r < |s.recs| {
        assert s.free[r] == r;
      }
    }
  }

  function Run(s: State, steps: seq<Step>): Option<State> {
    if steps == [] then Some(s) else
    match Run(s, steps[..|steps| - 1])
    case None => None
    case Some(t) => if Enabled(t, steps[|steps| - 1]) then Some(Apply(t, steps[|steps| - 1])) else None
  }

  lemma {:induction false} RunKeepsInv(s: State, steps: seq<Step>)
    requires Initial(s) && Run(s, steps).Some?
    ensures Inv(Run(s, steps).value)
  {
    if steps == [] {
      InitialInv(s);
    } else {
      RunKeepsInv(s, steps[..|steps| - 1]);
      StepKeepsInv(Run(s, steps[..|steps| - 1]).value, steps[|steps| - 1]);
    }
  }

  /** Request r was fetched with transfers `segs`. */
  ghost predicate Asked(t: State, r: nat, segs: seq<Transfer>) {
    r in t.fetchedAs && t.fetchedAs[r] < |t.subs| && t.subs[t.fetchedAs[r]].req == r && t.subs[t.fetchedAs[r]].segs == segs
  }

  lemma AskedStays(t: State, st: Step, r: nat, segs: seq<Transfer>)
    requires Asked(t, r, segs) && Enabled(t, st)
    ensures Asked(Apply(t, st), r, segs)
  {
  }

  lemma {:induction false} FetchedByStep(s: State, steps: seq<Step>, r: nat) returns (j: nat)
    requires Initial(s) && Run(s, steps).Some? && r in Run(s, steps).value.fetchedAs
    ensures j < |steps| && steps[j].Fetch? && steps[j].req == r && Asked(Run(s, steps).value, r, steps[j].segs)
  {
    var init, st := steps[..|steps| - 1], steps[|steps| - 1];
    var t := Run(s, init).value;
    if r in t.fetchedAs {
      j := FetchedByStep(s, init, r);
      AskedStays(t, st, r, steps[j].segs);
    } else {
      j := |steps| - 1;
    }
  }

  /** In every run: no request is ended twice; one that was ended was fetched by a step j of the run,
      had posted its last work request, all of them were reaped, they moved exactly the bytes that
      step j asked for, and its submitter has no step left. */
  lemma {:induction false} OneCompletionSafety(s: State, steps: seq<Step>, r: nat) returns (j: nat)
    requires Initial(s) && Run(s, steps).Some? && r in Run(s, steps).value.log
    ensures j < |steps| && steps[j].Fetch? && steps[j].req == r && Asked(Run(s, steps).value, r, steps[j].segs)
    ensures var t := Run(s, steps).value;
            && Distinct(t.log)
            && r in t.fetchedAs && t.fetchedAs[r] < |t.subs|
            && var u := t.subs[t.fetchedAs[r]];
            && u.req == r && u.pc.Done? && u.handled == |u.sent|
            && AllMoves(u.sent[..u.handled]) == AllMoves(steps[j].segs)
            && (forall st: Step :: (st.Segment? || st.Flush? || st.Mark? || st.PostLast?) && st.i == t.fetchedAs[r] ==> !Enabled(t, st))
  {
    RunKeepsInv(s, steps);
    j := FetchedByStep(s, steps, r);
    var t := Run(s, steps).value;
    var u := t.subs[t.fetchedAs[r]];
    assert SubOk(u, t.recs);
    CounterRunsAhead(u);
    assert u.sent[..u.handled] == u.sent;
  }

  /** The handler's test: comparing finds equality exactly when the completion just counted was the
      submission's last, and then the flag is set too; so the test succeeds once per request. */
  lemma {:induction false} OneTestIsExact(s: State, steps: seq<Step>)
    requires Initial(s) && Run(s, steps).Some?
    ensures var t := Run(s, steps).value;
            t.handler.Counted? ==>
              && Enabled(t, Compare) && t.handler.sub < |t.subs|
              && (Apply(t, Compare).handler.Matched? <==>
                  t.subs[t.handler.sub].pc.Done? && t.subs[t.handler.sub].handled == |t.subs[t.handler.sub].sent|)
    ensures var t := Run(s, steps).value;
            t.handler.Matched? ==> Enabled(t, Check) && Apply(t, Check).handler.Ending?
  {
    RunKeepsInv(s, steps);
    var t := Run(s, steps).value;
    if t.handler.Counted? {
      CompareIsExact(t);
    }
    if t.handler.Matched? {
      CheckAlwaysSucceeds(t);
    }
  }

  /** All submitters are done, and the adapter and the handler are idle. */
  predicate Quiescent(t: State) {
    t.wires == [] && t.handler.Ready? && forall i :: 0 <= i < |t.subs| ==> t.subs[i].pc.Done?
  }

  /** When nothing is left to do, every fetched request has been ended and every record is back. */
  lemma {:induction false} OneQuiescence(s: State, steps: seq<Step>)
    requires Initial(s) && Run(s, steps).Some? && Quiescent(Run(s, steps).value)
    ensures var t := Run(s, steps).value;
            && (forall r :: r in t.fetchedAs <==> r in t.log)
            && (forall r: nat :: r in t.free <==> r < |t.recs|)
  {
    RunKeepsInv(s, steps);
    var t := Run(s, steps).value;
    forall i | 0 <= i < |t.subs| ensures t.subs[i].ended {
      assert Count(t.wires, i) == 0;
      assert Settled(t.subs[i]);
    }
  }
}
