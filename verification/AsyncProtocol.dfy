/**
 MODE_ASYNC as interleaved steps: any number of concurrent drains, the adapter, and the completion
 handler comp_handler_send, over shared batch records, the record pool and an armed completion queue.

 Shared state is what the code shares.  `handled`/`ended` inside a drain, the drain number carried by
 a wire and by the handler, `holder` and `fetchedAs` are history: no step's effect on the rest
 depends on them.  The pool is the FIFO that the ring implements: taking needs two records in it.
 */
module AsyncProtocol {
  import opened Transfers
  import opened Batching
  import opened RingPool
  import opened AsyncDrain

  /** A posted work request; `owner` is its wr_id. */
  datatype Wire = Wire(drain: nat, owner: nat)

  /** Walking: about to end `curr`.  Returned: `curr` was given back, its `next` not yet read. */
  datatype Handler = Idle | Polling | Rearming | Walking(curr: nat, drain: nat) | Returned(curr: nat, drain: nat)

  type Spot = (nat, nat)

  datatype State = State(merge: bool, recs: seq<Record>, free: seq<nat>, drains: seq<Drain>,
                         sendq: seq<Wire>, cq: seq<Wire>, armed: bool, event: bool, handler: Handler,
                         log: seq<nat>, holder: map<nat, Spot>, fetchedAs: map<nat, Spot>)

  datatype Step =
    | Start
    | Fetch(d: nat, req: nat, segs: seq<Transfer>)
    | Segment(d: nat)
    | Finish(d: nat)
    | Submit(d: nat)
    | Post(d: nat)
    | Complete
    | Wake
    | Poll
    | Notify(missed: bool)
    | End
    | Follow

  predicate Initial(s: State) {
    && s.recs != []
    && |s.free| == |s.recs| && (forall i :: 0 <= i < |s.free| ==> s.free[i] == i)
    && s.drains == [] && s.sendq == [] && s.cq == []
    && s.armed && !s.event && s.handler == Idle
    && s.log == [] && s.holder == map[] && s.fetchedAs == map[]
  }

  predicate Enabled(s: State, st: Step) {
    match st
    case Start => true
    case Fetch(d, req, segs) =>
      && d < |s.drains| && s.drains[d].phase.Between?
      && |s.free| >= 2 && s.free[0] < |s.recs|
      && req !in s.fetchedAs
      && segs != [] && AllSound(segs) && (s.drains[d].merge ==> Bytes(Ts(s.drains[d].entries)) + Bytes(segs) < U32)
    case Segment(d) =>
      && d < |s.drains| && s.drains[d].phase.InRequest? && s.drains[d].phase.left != []
      && s.drains[d].items != [] && Last(s.drains[d]).rec < |s.recs|
    case Finish(d) =>
      && d < |s.drains| && s.drains[d].phase == InRequest([])
      && CanHang(s.drains[d], s.recs)
    case Submit(d) => d < |s.drains| && s.drains[d].phase.Between?
    case Post(d) => d < |s.drains| && s.drains[d].phase.Posting? && s.drains[d].posted < |s.drains[d].entries|
    case Complete => s.sendq != []
    case Wake => s.handler.Idle? && s.event
    case Poll => s.handler.Polling? && (s.cq != [] ==> s.cq[0].owner < |s.recs| && s.cq[0].drain < |s.drains|)
    case Notify(missed) => s.handler.Rearming? && (s.cq != [] ==> missed)
    case End => s.handler.Walking? && s.handler.curr < |s.recs| && s.handler.drain < |s.drains|
    case Follow => s.handler.Returned? && s.handler.curr < |s.recs|
  }

  function Apply(s: State, st: Step): State
    requires Enabled(s, st)
  {
    match st
    case Start => s.(drains := s.drains + [FreshDrain(s.merge)])
    case Fetch(d, req, segs) =>
      var rec := s.free[0];
      s.(free := s.free[1..],
         recs := s.recs[rec := Record(req, 0, None)],
         drains := s.drains[d := Fetched(s.drains[d], req, rec, segs)],
         holder := s.holder[rec := (d, |s.drains[d].items|)],
         fetchedAs := s.fetchedAs[req := (d, |s.drains[d].items|)])
    case Segment(d) =>
      s.(recs := Counted(s.drains[d], s.recs),
         drains := s.drains[d := Segmented(s.drains[d])])
    case Finish(d) =>
      s.(recs := Hung(s.drains[d], s.recs), drains := s.drains[d := Finished(s.drains[d])])
    case Submit(d) => s.(drains := s.drains[d := Submitted(s.drains[d])])
    case Post(d) =>
      var dr := s.drains[d];
      s.(sendq := s.sendq + [Wire(d, dr.entries[dr.posted].owner)], drains := s.drains[d := PostedOne(dr)])
    case Complete =>
      s.(cq := s.cq + [s.sendq[0]], sendq := s.sendq[1..], event := s.event || s.armed, armed := false)
    case Wake => s.(event := false, handler := Polling)
    case Poll =>
      if s.cq == [] then s.(handler := Rearming) else
      var w := s.cq[0];
      var recs := Decremented(s.recs, w.owner);
      s.(cq := s.cq[1..], recs := recs,
         drains := s.drains[w.drain := HandledOne(s.drains[w.drain])],
         handler := if recs[w.owner].outstanding == 0 then Walking(w.owner, w.drain) else Polling)
    case Notify(missed) => s.(armed := true, handler := if missed then Polling else Idle)
    case End =>
      var curr, d := s.handler.curr, s.handler.drain;
      s.(log := s.log + [s.recs[curr].req], free := s.free + [curr], holder := s.holder - {curr},
         drains := s.drains[d := EndedOne(s.drains[d])], handler := Returned(curr, d))
    case Follow =>
      s.(handler := match s.recs[s.handler.curr].next
                    case None => Polling
                    case Some(next) => Walking(next, s.handler.drain))
  }

  // ---------------------------------------------------------------- the invariant

  ghost predicate DrainsOk(drains: seq<Drain>, recs: seq<Record>) {
    forall i {:trigger DrainOk(drains[i], recs)} :: 0 <= i < |drains| ==> DrainOk(drains[i], recs)
  }

  ghost predicate Unended(drains: seq<Drain>, i: int, k: int) {
    0 <= i < |drains| && drains[i].ended <= k < |drains[i].items|
  }

  /** Every record out of the pool belongs to exactly one request that was not ended yet. */
  ghost predicate HolderOk(drains: seq<Drain>, holder: map<nat, Spot>) {
    && (forall i, k :: Unended(drains, i, k) ==>
          drains[i].items[k].rec in holder && holder[drains[i].items[k].rec] == (i, k))
    && (forall r :: r in holder ==> Unended(drains, holder[r].0, holder[r].1) &&
                                    drains[holder[r].0].items[holder[r].1].rec == r)
  }

  /** All other records are in the pool, once each. */
  ghost predicate FreeOk(free: seq<nat>, n: nat, holder: map<nat, Spot>) {
    && Distinct(free)
    && (forall r: nat :: r in free <==> r < n && r !in holder)
    && (forall r :: r in holder ==> r < n)
  }

  function OwnerIf(w: Wire, d: nat): seq<nat> {
    if w.drain == d then [w.owner] else []
  }

  function Owners(q: seq<Wire>, d: nat): seq<nat> {
    if q == [] then [] else OwnerIf(q[0], d) + Owners(q[1..], d)
  }

  function EntryOwners(es: seq<Entry>): (os: seq<nat>)
    ensures |os| == |es|
  {
    seq(|es|, i requires 0 <= i < |es| => es[i].owner)
  }

  /** A drain's part of the queues is exactly its posted, unhandled entries, in order. */
  ghost predicate QueuedFor(d: Drain, i: nat, q: seq<Wire>) {
    d.handled <= d.posted <= |d.entries| && Owners(q, i) == EntryOwners(d.entries[d.handled..d.posted])
  }

  ghost predicate WiresOk(drains: seq<Drain>, q: seq<Wire>) {
    && (forall x :: 0 <= x < |q| ==> q[x].drain < |drains|)
    && (forall i {:trigger QueuedFor(drains[i], i, q)} :: 0 <= i < |drains| ==> QueuedFor(drains[i], i, q))
  }

  /** All drains but the one being walked have nothing waiting to be ended. */
  ghost predicate HandlerOk(drains: seq<Drain>, recs: seq<Record>, free: seq<nat>, h: Handler) {
    match h
    case Walking(curr, d) =>
      && d < |drains| && drains[d].phase.Posting? && drains[d].ended < |drains[d].items|
      && drains[d].items[drains[d].ended].rec == curr && drains[d].items[drains[d].ended].hi == drains[d].handled
      && forall i {:trigger Settled(drains[i])} :: 0 <= i < |drains| && i != d ==> Settled(drains[i])
    case Returned(curr, d) =>
      && d < |drains| && drains[d].phase.Posting? && 1 <= drains[d].ended <= |drains[d].items|
      && drains[d].items[drains[d].ended - 1].rec == curr && drains[d].items[drains[d].ended - 1].hi == drains[d].handled
      && free != [] && free[|free| - 1] == curr < |recs| && LinkAfter(drains[d], recs[curr].next)
      && forall i {:trigger Settled(drains[i])} :: 0 <= i < |drains| && i != d ==> Settled(drains[i])
    case _ => forall i {:trigger Settled(drains[i])} :: 0 <= i < |drains| ==> Settled(drains[i])
  }

  /** The log of ended requests is exactly the ended items, each once. */
  ghost predicate LogOk(drains: seq<Drain>, fetchedAs: map<nat, Spot>, log: seq<nat>) {
    && (forall i, k :: 0 <= i < |drains| && 0 <= k < |drains[i].items| ==>
          drains[i].items[k].req in fetchedAs && fetchedAs[drains[i].items[k].req] == (i, k))
    && (forall r :: r in fetchedAs ==> FetchedAt(drains, fetchedAs[r], r))
    && (forall r :: r in log ==> r in fetchedAs && EndedAt(drains, fetchedAs[r]))
    && Distinct(log)
    && (forall i, k :: 0 <= i < |drains| && 0 <= k < drains[i].ended && k < |drains[i].items| ==>
          drains[i].items[k].req in log)
  }

  ghost predicate FetchedAt(drains: seq<Drain>, at: Spot, r: nat) {
    at.0 < |drains| && at.1 < |drains[at.0].items| && drains[at.0].items[at.1].req == r
  }

  ghost predicate EndedAt(drains: seq<Drain>, at: Spot) {
    at.0 < |drains| && at.1 < drains[at.0].ended
  }

  ghost predicate WakeOk(cq: seq<Wire>, armed: bool, event: bool, h: Handler) {
    h.Idle? && !event ==> armed && cq == []
  }

  ghost predicate Inv(s: State) {
    && DrainsOk(s.drains, s.recs)
    && HolderOk(s.drains, s.holder)
    && FreeOk(s.free, |s.recs|, s.holder)
    && WiresOk(s.drains, s.cq + s.sendq)
    && HandlerOk(s.drains, s.recs, s.free, s.handler)
    && LogOk(s.drains, s.fetchedAs, s.log)
    && WakeOk(s.cq, s.armed, s.event, s.handler)
  }

  // ---------------------------------------------------------------- helper lemmas

  lemma HeldDistinct(drains: seq<Drain>, holder: map<nat, Spot>, d: nat)
    requires HolderOk(drains, holder) && d < |drains|
    ensures DistinctRecs(drains[d])
    ensures forall i :: 0 <= i < |drains| && i != d ==>
              forall k :: drains[d].ended <= k < |drains[d].items| ==> Foreign(drains[i], drains[d].items[k].rec)
  {
    forall k, l | drains[d].ended <= k < l < |drains[d].items| ensures drains[d].items[k].rec != drains[d].items[l].rec {
      assert Unended(drains, d, k) && Unended(drains, d, l);
    }
    forall i, k, l | 0 <= i < |drains| && i != d && drains[d].ended <= k < |drains[d].items| && drains[i].ended <= l < |drains[i].items|
      ensures drains[i].items[l].rec != drains[d].items[k].rec
    {
      assert Unended(drains, d, k) && Unended(drains, i, l);
    }
  }

  lemma FreeIsForeign(drains: seq<Drain>, holder: map<nat, Spot>, rec: nat, i: nat)
    requires HolderOk(drains, holder) && rec !in holder && i < |drains|
    ensures Foreign(drains[i], rec)
  {
    forall k | drains[i].ended <= k < |drains[i].items| ensures drains[i].items[k].rec != rec {
      assert Unended(drains, i, k);
    }
  }

  /** Changing one drain and a record only it may hold. */
  lemma OneDrainChanges(drains: seq<Drain>, recs: seq<Record>, d: nat, n: Drain, rec: nat, r: Record)
    requires DrainsOk(drains, recs) && d < |drains| && rec < |recs|
    requires forall i {:trigger Foreign(drains[i], rec)} :: 0 <= i < |drains| && i != d ==> Foreign(drains[i], rec)
    requires DrainOk(n, recs[rec := r])
    ensures DrainsOk(drains[d := n], recs[rec := r])
  {
    forall i | 0 <= i < |drains| && i != d ensures DrainOk(drains[i], recs[rec := r]) {
      ForeignChange(drains[i], recs, rec, r);
    }
  }

  lemma {:induction false} OwnersSnoc(q: seq<Wire>, w: Wire, d: nat)
    ensures Owners(q + [w], d) == Owners(q, d) + OwnerIf(w, d)
  {
    if q == [] {
      assert q + [w] == [w];
      assert Owners([w], d) == OwnerIf(w, d) + Owners([], d);
    } else {
      var t := q[1..];
      assert (q + [w])[0] == q[0] && (q + [w])[1..] == t + [w];
      OwnersSnoc(t, w, d);
      assert OwnerIf(q[0], d) + (Owners(t, d) + OwnerIf(w, d)) == (OwnerIf(q[0], d) + Owners(t, d)) + OwnerIf(w, d);
    }
  }

  // ---------------------------------------------------------------- changing one drain

  lemma SameHeldHolder(drains: seq<Drain>, holder: map<nat, Spot>, d: nat, n: Drain)
    requires d < |drains| && SameHeld(drains[d], n) && HolderOk(drains, holder)
    ensures HolderOk(drains[d := n], holder)
  {
    var now := drains[d := n];
    forall i, k | Unended(now, i, k)
      ensures now[i].items[k].rec in holder && holder[now[i].items[k].rec] == (i, k)
    {
      assert Unended(drains, i, k);
    }
  }

  lemma SameHeldLog(drains: seq<Drain>, fetchedAs: map<nat, Spot>, log: seq<nat>, d: nat, n: Drain)
    requires d < |drains| && SameHeld(drains[d], n) && LogOk(drains, fetchedAs, log)
    ensures LogOk(drains[d := n], fetchedAs, log)
  {
  }

  lemma OneDrainWires(drains: seq<Drain>, q: seq<Wire>, d: nat, n: Drain)
    requires d < |drains| && WiresOk(drains, q) && QueuedFor(n, d, q)
    ensures WiresOk(drains[d := n], q)
  {
  }

  /** A drain still building is not the one being walked, and what it does is not noticed there. */
  lemma BuildingHandler(drains: seq<Drain>, recs: seq<Record>, free: seq<nat>, h: Handler,
                        d: nat, n: Drain, recs': seq<Record>, free': seq<nat>)
    requires HandlerOk(drains, recs, free, h) && d < |drains| && !drains[d].phase.Posting? && Settled(n)
    requires |recs'| == |recs|
    requires h.Returned? ==> recs'[h.curr].next == recs[h.curr].next
    requires h.Returned? ==> free' != [] && free'[|free'| - 1] == free[|free| - 1]
    ensures HandlerOk(drains[d := n], recs', free', h)
  {
  }

  // ---------------------------------------------------------------- steps of a drain

  lemma StartKeepsDrains(merge: bool, drains: seq<Drain>, recs: seq<Record>, holder: map<nat, Spot>)
    requires DrainsOk(drains, recs) && HolderOk(drains, holder)
    ensures DrainsOk(drains + [FreshDrain(merge)], recs) && HolderOk(drains + [FreshDrain(merge)], holder)
  {
    var now := drains + [FreshDrain(merge)];
    forall i | 0 <= i < |now| ensures DrainOk(now[i], recs) {
      if i < |drains| {
        assert DrainOk(drains[i], recs);
      }
    }
    forall i, k | Unended(now, i, k)
      ensures now[i].items[k].rec in holder && holder[now[i].items[k].rec] == (i, k)
    {
      assert Unended(drains, i, k);
    }
    forall r | r in holder ensures Unended(now, holder[r].0, holder[r].1) && now[holder[r].0].items[holder[r].1].rec == r {
      assert Unended(drains, holder[r].0, holder[r].1);
    }
  }

  lemma StartKeepsWires(merge: bool, drains: seq<Drain>, q: seq<Wire>)
    requires WiresOk(drains, q)
    ensures WiresOk(drains + [FreshDrain(merge)], q)
  {
    OwnersNone(q, |drains|);
    forall i | 0 <= i < |drains| + 1 ensures QueuedFor((drains + [FreshDrain(merge)])[i], i, q) {
      if i < |drains| {
        assert QueuedFor(drains[i], i, q);
      }
    }
  }

  lemma StartKeepsHandler(merge: bool, drains: seq<Drain>, recs: seq<Record>, free: seq<nat>, h: Handler)
    requires HandlerOk(drains, recs, free, h)
    ensures HandlerOk(drains + [FreshDrain(merge)], recs, free, h)
  {
  }

  lemma StartKeepsInv(s: State)
    requires Inv(s)
    ensures Inv(Apply(s, Start))
  {
    StartKeepsDrains(s.merge, s.drains, s.recs, s.holder);
    StartKeepsWires(s.merge, s.drains, s.cq + s.sendq);
    StartKeepsHandler(s.merge, s.drains, s.recs, s.free, s.handler);
  }

  lemma {:induction false} OwnersNone(q: seq<Wire>, d: nat)
    requires forall x :: 0 <= x < |q| ==> q[x].drain != d
    ensures Owners(q, d) == []
  {
    if q != [] {
      OwnersNone(q[1..], d);
    }
  }

  lemma FetchKeepsPool(s: State, d: nat, req: nat, segs: seq<Transfer>)
    requires HolderOk(s.drains, s.holder) && FreeOk(s.free, |s.recs|, s.holder) && Enabled(s, Fetch(d, req, segs))
    requires Counters(s.drains[d])
    ensures HolderOk(Apply(s, Fetch(d, req, segs)).drains, Apply(s, Fetch(d, req, segs)).holder)
    ensures FreeOk(s.free[1..], |s.recs|, Apply(s, Fetch(d, req, segs)).holder)
  {
    var s' := Apply(s, Fetch(d, req, segs));
    var rec := s.free[0];
    assert rec in s.free && rec !in s.holder;
    forall i, k | Unended(s'.drains, i, k)
      ensures s'.drains[i].items[k].rec in s'.holder && s'.holder[s'.drains[i].items[k].rec] == (i, k)
    {
      if !(i == d && k == |s.drains[d].items|) {
        assert Unended(s.drains, i, k) && s'.drains[i].items[k] == s.drains[i].items[k];
      }
    }
    forall r | r in s'.holder
      ensures Unended(s'.drains, s'.holder[r].0, s'.holder[r].1) && s'.drains[s'.holder[r].0].items[s'.holder[r].1].rec == r
    {
      if r != rec {
        assert Unended(s.drains, s.holder[r].0, s.holder[r].1);
      }
    }
    forall r: nat ensures r in s.free[1..] <==> r < |s.recs| && r !in s'.holder {
      assert s.free == [rec] + s.free[1..];
      assert r in s.free <==> r == rec || r in s.free[1..];
    }
  }

  lemma FetchKeepsLog(s: State, d: nat, req: nat, segs: seq<Transfer>)
    requires LogOk(s.drains, s.fetchedAs, s.log) && Enabled(s, Fetch(d, req, segs))
    requires s.drains[d].ended <= |s.drains[d].items|
    ensures LogOk(Apply(s, Fetch(d, req, segs)).drains, Apply(s, Fetch(d, req, segs)).fetchedAs, s.log)
  {
    var s' := Apply(s, Fetch(d, req, segs));
    forall i, k | 0 <= i < |s'.drains| && 0 <= k < |s'.drains[i].items|
      ensures s'.drains[i].items[k].req in s'.fetchedAs && s'.fetchedAs[s'.drains[i].items[k].req] == (i, k)
    {
      if !(i == d && k == |s.drains[d].items|) {
        assert s'.drains[i].items[k] == s.drains[i].items[k];
      }
    }
  }

  lemma FetchKeepsDrains(s: State, d: nat, req: nat, segs: seq<Transfer>)
    requires DrainsOk(s.drains, s.recs) && HolderOk(s.drains, s.holder) && FreeOk(s.free, |s.recs|, s.holder)
    requires Enabled(s, Fetch(d, req, segs))
    ensures DrainsOk(Apply(s, Fetch(d, req, segs)).drains, Apply(s, Fetch(d, req, segs)).recs)
  {
    var rec := s.free[0];
    assert rec in s.free && rec !in s.holder;
    forall i | 0 <= i < |s.drains| ensures Foreign(s.drains[i], rec) {
      FreeIsForeign(s.drains, s.holder, rec, i);
    }
    FetchedOk(s.drains[d], s.recs, req, rec, segs);
    OneDrainChanges(s.drains, s.recs, d, Fetched(s.drains[d], req, rec, segs), rec, Record(req, 0, None));
  }

  lemma FetchKeepsHandler(s: State, d: nat, req: nat, segs: seq<Transfer>)
    requires FreeOk(s.free, |s.recs|, s.holder) && HandlerOk(s.drains, s.recs, s.free, s.handler)
    requires Enabled(s, Fetch(d, req, segs))
    ensures var s' := Apply(s, Fetch(d, req, segs)); HandlerOk(s'.drains, s'.recs, s'.free, s'.handler)
  {
    var s' := Apply(s, Fetch(d, req, segs));
    assert s.free[0] != s.free[|s.free| - 1] == s'.free[|s'.free| - 1];
    BuildingHandler(s.drains, s.recs, s.free, s.handler, d, s'.drains[d], s'.recs, s'.free);
  }

  lemma FetchKeepsInv(s: State, d: nat, req: nat, segs: seq<Transfer>)
    requires Inv(s) && Enabled(s, Fetch(d, req, segs))
    ensures Inv(Apply(s, Fetch(d, req, segs)))
  {
    var s' := Apply(s, Fetch(d, req, segs));
    BuildingCounters(s.drains, s.recs, d);
    FetchKeepsDrains(s, d, req, segs);
    FetchKeepsPool(s, d, req, segs);
    FetchKeepsLog(s, d, req, segs);
    assert QueuedFor(s.drains[d], d, s.cq + s.sendq);
    OneDrainWires(s.drains, s.cq + s.sendq, d, s'.drains[d]);
    FetchKeepsHandler(s, d, req, segs);
  }

  lemma BuildingCounters(drains: seq<Drain>, recs: seq<Record>, d: nat)
    requires DrainsOk(drains, recs) && d < |drains|
    ensures Counters(drains[d])
  {
    assert DrainOk(drains[d], recs);
  }

  /** A step of a drain that is still building: only that drain and one of its own records change. */
  lemma BuildStep(s: State, d: nat, n: Drain, rec: nat, r: Record)
    requires Inv(s) && d < |s.drains| && !s.drains[d].phase.Posting?
    requires rec in s.holder && rec < |s.recs|
    requires DrainsOk(s.drains[d := n], s.recs[rec := r])
    requires SameHeld(s.drains[d], n) && Settled(n) && n.handled == n.posted == 0
    ensures Inv(s.(drains := s.drains[d := n], recs := s.recs[rec := r]))
  {
    SameHeldHolder(s.drains, s.holder, d, n);
    SameHeldLog(s.drains, s.fetchedAs, s.log, d, n);
    BuildingCounters(s.drains, s.recs, d);
    assert QueuedFor(s.drains[d], d, s.cq + s.sendq);
    assert n.entries[0..0] == s.drains[d].entries[0..0];
    OneDrainWires(s.drains, s.cq + s.sendq, d, n);
    assert s.handler.Returned? ==> s.handler.curr in s.free;
    BuildingHandler(s.drains, s.recs, s.free, s.handler, d, n, s.recs[rec := r], s.free);
  }

  lemma SegmentKeepsDrains(s: State, d: nat)
    requires DrainsOk(s.drains, s.recs) && HolderOk(s.drains, s.holder) && Enabled(s, Segment(d))
    ensures DrainsOk(Apply(s, Segment(d)).drains, Apply(s, Segment(d)).recs)
    ensures Last(s.drains[d]).rec in s.holder
  {
    var dr := s.drains[d];
    var recs' := Counted(dr, s.recs);
    var rec := Last(dr).rec;
    HeldDistinct(s.drains, s.holder, d);
    SegmentedOk(dr, s.recs);
    assert Unended(s.drains, d, |dr.items| - 1) && dr.items[|dr.items| - 1].rec == rec;
    assert recs' == s.recs[rec := recs'[rec]];
    OneDrainChanges(s.drains, s.recs, d, Segmented(dr), rec, recs'[rec]);
  }

  lemma SegmentKeepsInv(s: State, d: nat)
    requires Inv(s) && Enabled(s, Segment(d))
    ensures Inv(Apply(s, Segment(d)))
  {
    SegmentKeepsDrains(s, d);
    BuildingCounters(s.drains, s.recs, d);
    var s' := Apply(s, Segment(d));
    var rec := Last(s.drains[d]).rec;
    assert s'.recs == s.recs[rec := s'.recs[rec]];
    BuildStep(s, d, s'.drains[d], rec, s'.recs[rec]);
  }

  lemma FinishKeepsDrains(s: State, d: nat) returns (rec: nat)
    requires DrainsOk(s.drains, s.recs) && HolderOk(s.drains, s.holder) && Enabled(s, Finish(d))
    ensures DrainsOk(Apply(s, Finish(d)).drains, Apply(s, Finish(d)).recs)
    ensures rec in s.holder && rec < |s.recs|
    ensures Apply(s, Finish(d)).recs == s.recs[rec := Apply(s, Finish(d)).recs[rec]]
  {
    var dr := s.drains[d];
    var recs' := Hung(dr, s.recs);
    HeldDistinct(s.drains, s.holder, d);
    FinishedOk(dr, s.recs);
    var k := HungAt(dr, s.recs);
    rec := dr.items[k].rec;
    assert Unended(s.drains, d, k);
    OneDrainChanges(s.drains, s.recs, d, Finished(dr), rec, recs'[rec]);
  }

  lemma FinishKeepsInv(s: State, d: nat)
    requires Inv(s) && Enabled(s, Finish(d))
    ensures Inv(Apply(s, Finish(d)))
  {
    var rec := FinishKeepsDrains(s, d);
    BuildingCounters(s.drains, s.recs, d);
    BuildStep(s, d, Finished(s.drains[d]), rec, Apply(s, Finish(d)).recs[rec]);
  }

  lemma SubmitKeepsInv(s: State, d: nat)
    requires Inv(s) && Enabled(s, Submit(d))
    ensures Inv(Apply(s, Submit(d)))
  {
    var n := Submitted(s.drains[d]);
    SubmitKeepsDrains(s.drains, s.recs, d);
    SameHeldHolder(s.drains, s.holder, d, n);
    SameHeldLog(s.drains, s.fetchedAs, s.log, d, n);
    assert QueuedFor(s.drains[d], d, s.cq + s.sendq);
    OneDrainWires(s.drains, s.cq + s.sendq, d, n);
    BuildingHandler(s.drains, s.recs, s.free, s.handler, d, n, s.recs, s.free);
  }

  lemma SameRecordsDrains(drains: seq<Drain>, recs: seq<Record>, d: nat, n: Drain)
    requires DrainsOk(drains, recs) && d < |drains| && DrainOk(n, recs)
    ensures DrainsOk(drains[d := n], recs)
  {
    var now := drains[d := n];
    forall i | 0 <= i < |now| ensures DrainOk(now[i], recs) {
      assert i != d ==> DrainOk(drains[i], recs);
    }
  }

  lemma SubmitKeepsDrains(drains: seq<Drain>, recs: seq<Record>, d: nat)
    requires DrainsOk(drains, recs) && d < |drains| && drains[d].phase.Between?
    ensures DrainsOk(drains[d := Submitted(drains[d])], recs) && Settled(Submitted(drains[d]))
  {
    SubmittedOk(drains[d], recs);
    SameRecordsDrains(drains, recs, d, Submitted(drains[d]));
  }

  lemma PostKeepsDrains(drains: seq<Drain>, recs: seq<Record>, d: nat)
    requires DrainsOk(drains, recs) && d < |drains| && drains[d].phase.Posting? && drains[d].posted < |drains[d].entries|
    ensures DrainsOk(drains[d := PostedOne(drains[d])], recs)
  {
    PostedOk(drains[d], recs);
    SameRecordsDrains(drains, recs, d, PostedOne(drains[d]));
  }

  lemma PostKeepsWires(drains: seq<Drain>, q: seq<Wire>, d: nat)
    requires WiresOk(drains, q) && d < |drains| && drains[d].posted < |drains[d].entries|
    ensures WiresOk(drains[d := PostedOne(drains[d])], q + [Wire(d, drains[d].entries[drains[d].posted].owner)])
  {
    var dr, w := drains[d], Wire(d, drains[d].entries[drains[d].posted].owner);
    var now := drains[d := PostedOne(dr)];
    forall i | 0 <= i < |now| ensures QueuedFor(now[i], i, q + [w]) {
      assert QueuedFor(drains[i], i, q);
      OwnersSnoc(q, w, i);
      if i == d {
        assert EntryOwners(dr.entries[dr.handled..dr.posted + 1]) ==
               EntryOwners(dr.entries[dr.handled..dr.posted]) + [w.owner];
      } else {
        assert Owners(q, i) + OwnerIf(w, i) == Owners(q, i);
      }
    }
  }

  /** Steps that keep items, counts of handled and ended, and the phase are not noticed by the handler. */
  lemma PostKeepsHandler(drains: seq<Drain>, recs: seq<Record>, free: seq<nat>, h: Handler, d: nat)
    requires HandlerOk(drains, recs, free, h) && d < |drains|
    ensures HandlerOk(drains[d := PostedOne(drains[d])], recs, free, h)
  {
    var now := drains[d := PostedOne(drains[d])];
    forall i | 0 <= i < |drains| ensures Settled(drains[i]) ==> Settled(now[i]) {
    }
  }

  lemma PostKeepsInv(s: State, d: nat)
    requires Inv(s) && Enabled(s, Post(d))
    ensures Inv(Apply(s, Post(d)))
  {
    var dr := s.drains[d];
    PostKeepsDrains(s.drains, s.recs, d);
    SameHeldHolder(s.drains, s.holder, d, PostedOne(dr));
    SameHeldLog(s.drains, s.fetchedAs, s.log, d, PostedOne(dr));
    PostKeepsWires(s.drains, s.cq + s.sendq, d);
    assert s.cq + (s.sendq + [Wire(d, dr.entries[dr.posted].owner)]) == (s.cq + s.sendq) + [Wire(d, dr.entries[dr.posted].owner)];
    PostKeepsHandler(s.drains, s.recs, s.free, s.handler, d);
  }

  // ---------------------------------------------------------------- the adapter and the handler

  lemma CompleteKeepsInv(s: State)
    requires Inv(s) && Enabled(s, Complete)
    ensures Inv(Apply(s, Complete))
  {
    assert (s.cq + [s.sendq[0]]) + s.sendq[1..] == s.cq + s.sendq;
  }

  lemma QuietHandlerKeepsInv(s: State, st: Step)
    requires Inv(s) && Enabled(s, st)
    requires st.Wake? || st.Notify? || (st.Poll? && s.cq == [])
    ensures Inv(Apply(s, st))
  {
  }

  /** The completion at the head of the queue is the next entry of its drain. */
  lemma HeadOfQueue(drains: seq<Drain>, q: seq<Wire>)
    requires WiresOk(drains, q) && q != []
    ensures q[0].drain < |drains|
    ensures drains[q[0].drain].handled < drains[q[0].drain].posted <= |drains[q[0].drain].entries|
    ensures drains[q[0].drain].entries[drains[q[0].drain].handled].owner == q[0].owner
  {
    var d := q[0].drain;
    assert QueuedFor(drains[d], d, q);
    assert Owners(q, d)[0] == q[0].owner;
  }

  lemma PollKeepsWires(drains: seq<Drain>, q: seq<Wire>)
    requires WiresOk(drains, q) && q != []
    ensures q[0].drain < |drains|
    ensures WiresOk(drains[q[0].drain := HandledOne(drains[q[0].drain])], q[1..])
  {
    HeadOfQueue(drains, q);
    var d := q[0].drain;
    var now := drains[d := HandledOne(drains[d])];
    forall i | 0 <= i < |now| ensures QueuedFor(now[i], i, q[1..]) {
      assert QueuedFor(drains[i], i, q);
      if i == d {
        var dr := drains[d];
        assert EntryOwners(dr.entries[dr.handled..dr.posted])[1..] == EntryOwners(dr.entries[dr.handled + 1..dr.posted]);
        assert Owners(q, d)[1..] == Owners(q[1..], d);
      } else {
        assert Owners(q, i) == [] + Owners(q[1..], i);
      }
    }
  }

  lemma PollKeepsDrains(drains: seq<Drain>, recs: seq<Record>, holder: map<nat, Spot>, d: nat)
    requires DrainsOk(drains, recs) && HolderOk(drains, holder) && d < |drains|
    requires drains[d].phase.Posting? && drains[d].handled < drains[d].posted && Settled(drains[d])
    ensures drains[d].posted <= |drains[d].entries| && drains[d].ended < |drains[d].items|
    ensures var rec := drains[d].entries[drains[d].handled].owner;
            && rec == drains[d].items[drains[d].ended].rec && rec < |recs|
            && DrainsOk(drains[d := HandledOne(drains[d])], Decremented(recs, rec))
            && (Decremented(recs, rec)[rec].outstanding == 0 <==> drains[d].items[drains[d].ended].hi == drains[d].handled + 1)
            && (Decremented(recs, rec)[rec].outstanding != 0 ==> Settled(HandledOne(drains[d])))
  {
    assert DrainOk(drains[d], recs);
    HeldDistinct(drains, holder, d);
    HandledOk(drains[d], recs);
    var rec := drains[d].items[drains[d].ended].rec;
    OneDrainChanges(drains, recs, d, HandledOne(drains[d]), rec, Decremented(recs, rec)[rec]);
  }

  lemma PostedMeansPosting(drains: seq<Drain>, recs: seq<Record>, d: nat)
    requires DrainsOk(drains, recs) && d < |drains| && drains[d].posted > 0
    ensures drains[d].phase.Posting?
  {
    assert DrainOk(drains[d], recs);
  }

  lemma PollKeepsHandler(s: State)
    requires HandlerOk(s.drains, s.recs, s.free, s.handler) && Enabled(s, Poll) && s.cq != []
    requires var d := s.cq[0].drain; var dr := s.drains[d];
             && dr.phase.Posting? && dr.ended < |dr.items| && dr.items[dr.ended].rec == s.cq[0].owner
             && (Decremented(s.recs, s.cq[0].owner)[s.cq[0].owner].outstanding == 0 ==> dr.items[dr.ended].hi == dr.handled + 1)
             && (Decremented(s.recs, s.cq[0].owner)[s.cq[0].owner].outstanding != 0 ==> Settled(HandledOne(dr)))
    ensures var s' := Apply(s, Poll); HandlerOk(s'.drains, s'.recs, s'.free, s'.handler)
  {
    var s' := Apply(s, Poll);
    forall i | 0 <= i < |s.drains| && i != s.cq[0].drain ensures Settled(s'.drains[i]) {
      assert Settled(s.drains[i]);
    }
  }

  lemma PollKeepsInv(s: State)
    requires Inv(s) && Enabled(s, Poll) && s.cq != []
    ensures Inv(Apply(s, Poll))
  {
    var q := s.cq + s.sendq;
    assert q[0] == s.cq[0] && q[1..] == s.cq[1..] + s.sendq;
    HeadOfQueue(s.drains, q);
    var d := q[0].drain;
    assert Settled(s.drains[d]);
    PostedMeansPosting(s.drains, s.recs, d);
    PollKeepsDrains(s.drains, s.recs, s.holder, d);
    PollKeepsWires(s.drains, q);
    PollKeepsHandler(s);
    SameHeldHolder(s.drains, s.holder, d, HandledOne(s.drains[d]));
    SameHeldLog(s.drains, s.fetchedAs, s.log, d, HandledOne(s.drains[d]));
  }

  lemma EndKeepsPool(s: State)
    requires HolderOk(s.drains, s.holder) && FreeOk(s.free, |s.recs|, s.holder)
    requires Enabled(s, End) && HandlerOk(s.drains, s.recs, s.free, s.handler)
    ensures HolderOk(Apply(s, End).drains, Apply(s, End).holder)
    ensures FreeOk(Apply(s, End).free, |s.recs|, Apply(s, End).holder)
  {
    var s' := Apply(s, End);
    var curr, d := s.handler.curr, s.handler.drain;
    assert Unended(s.drains, d, s.drains[d].ended);
    assert s.holder[curr] == (d, s.drains[d].ended);
    forall i, k | Unended(s'.drains, i, k)
      ensures s'.drains[i].items[k].rec in s'.holder && s'.holder[s'.drains[i].items[k].rec] == (i, k)
    {
      assert Unended(s.drains, i, k);
    }
    forall r | r in s'.holder
      ensures Unended(s'.drains, s'.holder[r].0, s'.holder[r].1) && s'.drains[s'.holder[r].0].items[s'.holder[r].1].rec == r
    {
      assert Unended(s.drains, s.holder[r].0, s.holder[r].1);
    }
  }

  lemma EndKeepsLog(s: State)
    requires LogOk(s.drains, s.fetchedAs, s.log)
    requires Enabled(s, End) && HandlerOk(s.drains, s.recs, s.free, s.handler)
    requires s.recs[s.handler.curr].req == s.drains[s.handler.drain].items[s.drains[s.handler.drain].ended].req
    ensures LogOk(Apply(s, End).drains, s.fetchedAs, Apply(s, End).log)
    ensures s.recs[s.handler.curr].req !in s.log
  {
    var s' := Apply(s, End);
    var d := s.handler.drain;
    var req := s.recs[s.handler.curr].req;
    assert s.fetchedAs[req] == (d, s.drains[d].ended);
    assert req !in s.log;
    forall r | r in s'.log ensures r in s.fetchedAs && EndedAt(s'.drains, s.fetchedAs[r]) {
      if r != req {
        assert r in s.log && EndedAt(s.drains, s.fetchedAs[r]);
      }
    }
  }

  lemma EndKeepsDrains(s: State)
    requires DrainsOk(s.drains, s.recs)
    requires Enabled(s, End) && HandlerOk(s.drains, s.recs, s.free, s.handler)
    ensures DrainsOk(Apply(s, End).drains, s.recs)
    ensures s.recs[s.handler.curr].req == s.drains[s.handler.drain].items[s.drains[s.handler.drain].ended].req
    ensures LinkAfter(EndedOne(s.drains[s.handler.drain]), s.recs[s.handler.curr].next)
  {
    var dr := s.drains[s.handler.drain];
    EndedOk(dr, s.recs);
    EndedLink(dr, s.recs);
    SameRecordsDrains(s.drains, s.recs, s.handler.drain, EndedOne(dr));
  }

  lemma EndKeepsHandler(s: State)
    requires Enabled(s, End) && HandlerOk(s.drains, s.recs, s.free, s.handler)
    requires LinkAfter(EndedOne(s.drains[s.handler.drain]), s.recs[s.handler.curr].next)
    ensures HandlerOk(Apply(s, End).drains, s.recs, Apply(s, End).free, Apply(s, End).handler)
  {
    var s' := Apply(s, End);
    forall i | 0 <= i < |s.drains| && i != s.handler.drain ensures Settled(s'.drains[i]) {
      assert Settled(s.drains[i]);
    }
  }

  lemma EndKeepsWires(drains: seq<Drain>, q: seq<Wire>, d: nat)
    requires WiresOk(drains, q) && d < |drains|
    ensures WiresOk(drains[d := EndedOne(drains[d])], q)
  {
    assert QueuedFor(drains[d], d, q);
    OneDrainWires(drains, q, d, EndedOne(drains[d]));
  }

  lemma EndKeepsInv(s: State)
    requires Inv(s) && Enabled(s, End)
    ensures Inv(Apply(s, End))
  {
    EndKeepsDrains(s);
    EndKeepsPool(s);
    EndKeepsLog(s);
    EndKeepsHandler(s);
    EndKeepsWires(s.drains, s.cq + s.sendq, s.handler.drain);
  }

  lemma FollowKeepsInv(s: State)
    requires Inv(s) && Enabled(s, Follow)
    ensures Inv(Apply(s, Follow))
  {
    var d := s.handler.drain;
    assert DrainOk(s.drains[d], s.recs);
    FollowKeepsHandler(s);
  }

  lemma FollowKeepsHandler(s: State)
    requires Enabled(s, Follow) && HandlerOk(s.drains, s.recs, s.free, s.handler)
    requires DrainOk(s.drains[s.handler.drain], s.recs)
    ensures HandlerOk(s.drains, s.recs, s.free, Apply(s, Follow).handler)
  {
    FollowedOk(s.drains[s.handler.drain], s.recs[s.handler.curr].next);
  }

  // ---------------------------------------------------------------- whole runs

  lemma StepKeepsInv(s: State, st: Step)
    requires Inv(s) && Enabled(s, st)
    ensures Inv(Apply(s, st))
  {
    match st {
      case Start => StartKeepsInv(s);
      case Fetch(d, req, segs) => FetchKeepsInv(s, d, req, segs);
      case Segment(d) => SegmentKeepsInv(s, d);
      case Finish(d) => FinishKeepsInv(s, d);
      case Submit(d) => SubmitKeepsInv(s, d);
      case Post(d) => PostKeepsInv(s, d);
      case Complete => CompleteKeepsInv(s);
      case Wake => QuietHandlerKeepsInv(s, st);
      case Poll => if s.cq == [] { QuietHandlerKeepsInv(s, st); } else { PollKeepsInv(s); }
      case Notify(_) => QuietHandlerKeepsInv(s, st);
      case End => EndKeepsInv(s);
      case Follow => FollowKeepsInv(s);
    }
  }

  lemma InitialInv(s: State)
    requires Initial(s)
    ensures Inv(s)
  {
    forall r: nat ensures r in s.free <==> r < |s.recs| && r !in s.holder {
      if r < |s.recs| {
        assert s.free[r] == r;
      }
    }
  }

  /** The state after a sequence of steps, if each was possible when its turn came. */
  function Run(s: State, steps: seq<Step>): Option<State> {
    if steps == [] then Some(s) else
    match Run(s, steps[..|steps| - 1])
    case None => None
    case Some(t) => if Enabled(t, steps[|steps| - 1]) then Some(Apply(t, steps[|steps| - 1])) else None
  }

  lemma {:induction false} RunKeepsInv(s: State, steps: seq<Step>)
    requires Initial(s) && Run(s, steps).Some?
    ensures Inv(Run(s, steps).value)
  {
    if steps == [] {
      InitialInv(s);
    } else {
      RunKeepsInv(s, steps[..|steps| - 1]);
      StepKeepsInv(Run(s, steps[..|steps| - 1]).value, steps[|steps| - 1]);
    }
  }

  lemma EndedIsCarried(d: Drain, recs: seq<Record>, k: nat)
    requires DrainOk(d, recs) && k < d.ended
    ensures d.handled <= |d.entries| && k < |d.items|
    ensures ItemMoves(d.items[..k + 1]) <= AllMoves(Ts(d.entries[..d.handled]))
  {
    assert CarriedUpTo(d, k);
    var hi := d.items[k].hi;
    assert Ts(d.entries[..d.handled]) == Ts(d.entries[..hi]) + Ts(d.entries[hi..d.handled]);
    AllMovesConcat(Ts(d.entries[..hi]), Ts(d.entries[hi..d.handled]));
  }

  /** What the submitter still has to look at of item k. */
  function LeftOf(d: Drain, k: nat): seq<Transfer> {
    if d.phase.InRequest? && k + 1 == |d.items| then d.phase.left else []
  }

  /** Request r was fetched with transfers `segs`, and none of them has been dropped or reordered. */
  ghost predicate Asked(t: State, r: nat, segs: seq<Transfer>) {
    && r in t.fetchedAs && FetchedAt(t.drains, t.fetchedAs[r], r)
    && var d, k := t.drains[t.fetchedAs[r].0], t.fetchedAs[r].1;
       d.items[k].segs + LeftOf(d, k) == segs
  }

  lemma AskedSegment(d: Drain, k: nat)
    requires d.phase.InRequest? && d.phase.left != [] && d.items != [] && k < |d.items|
    ensures var n := Segmented(d);
            && n.items[k].req == d.items[k].req
            && n.items[k].segs + LeftOf(n, k) == d.items[k].segs + LeftOf(d, k)
  {
    if k == |d.items| - 1 {
      assert d.phase.left == [d.phase.left[0]] + d.phase.left[1..];
    }
  }

  lemma AskedStays(t: State, st: Step, r: nat, segs: seq<Transfer>)
    requires Asked(t, r, segs) && Enabled(t, st)
    ensures Asked(Apply(t, st), r, segs)
  {
    if st.Segment? && st.d == t.fetchedAs[r].0 {
      AskedSegment(t.drains[st.d], t.fetchedAs[r].1);
    }
  }

  lemma AskedNow(t: State, d: nat, r: nat, segs: seq<Transfer>)
    requires Enabled(t, Fetch(d, r, segs))
    ensures Asked(Apply(t, Fetch(d, r, segs)), r, segs)
  {
    assert [] + segs == segs;
  }

  /** A request that was fetched was fetched by a step of the run, with the transfers it still has. */
  lemma {:induction false} FetchedByStep(s: State, steps: seq<Step>, r: nat) returns (j: nat)
    requires Initial(s) && Run(s, steps).Some? && r in Run(s, steps).value.fetchedAs
    ensures j < |steps| && steps[j].Fetch? && steps[j].req == r && Asked(Run(s, steps).value, r, steps[j].segs)
  {
    var init, st := steps[..|steps| - 1], steps[|steps| - 1];
    var t := Run(s, init).value;
    if r in t.fetchedAs {
      j := FetchedByStep(s, init, r);
      AskedStays(t, st, r, steps[j].segs);
    } else {
      j := |steps| - 1;
      AskedNow(t, st.d, r, st.segs);
    }
  }

  /** Completion safety: in every run, whatever the interleaving, no request is ended twice, and a
      request that was ended was fetched by a step j of the run, and the work requests already
      completed carry, after the bytes of the requests before it, all the bytes that step j asked for. */
  lemma {:induction false} AsyncCompletionSafety(s: State, steps: seq<Step>, r: nat) returns (j: nat)
    requires Initial(s) && Run(s, steps).Some? && r in Run(s, steps).value.log
    ensures j < |steps| && steps[j].Fetch? && steps[j].req == r
    ensures var t := Run(s, steps).value;
            && Distinct(t.log)
            && r in t.fetchedAs && t.fetchedAs[r].0 < |t.drains|
            && var d, k := t.drains[t.fetchedAs[r].0], t.fetchedAs[r].1;
            && k < |d.items| && d.items[k].req == r && d.handled <= d.posted <= |d.entries|
            && ItemMoves(d.items[..k]) + AllMoves(steps[j].segs) <= AllMoves(Ts(d.entries[..d.handled]))
  {
    RunKeepsInv(s, steps);
    EndedIsSafe(Run(s, steps).value, r);
    j := FetchedByStep(s, steps, r);
  }

  lemma EndedIsSafe(t: State, r: nat)
    requires Inv(t) && r in t.log
    ensures Distinct(t.log) && r in t.fetchedAs && t.fetchedAs[r].0 < |t.drains|
    ensures var d, k := t.drains[t.fetchedAs[r].0], t.fetchedAs[r].1;
            && k < |d.items| && d.items[k].req == r && d.handled <= d.posted <= |d.entries|
            && LeftOf(d, k) == [] && d.items[k].segs + [] == d.items[k].segs
            && ItemMoves(d.items[..k]) + AllMoves(d.items[k].segs) <= AllMoves(Ts(d.entries[..d.handled]))
  {
    assert EndedAt(t.drains, t.fetchedAs[r]);
    var d, k := t.drains[t.fetchedAs[r].0], t.fetchedAs[r].1;
    assert DrainOk(d, t.recs);
    EndedIsCarried(d, t.recs, k);
    assert d.items[..k + 1][..k] == d.items[..k];
    assert FetchedAt(t.drains, t.fetchedAs[r], r);
  }

  /** All drains have posted everything, and the adapter and the handler are idle. */
  predicate Quiescent(t: State) {
    && t.sendq == [] && t.cq == [] && t.handler.Idle?
    && forall i :: 0 <= i < |t.drains| ==> t.drains[i].phase.Posting? && t.drains[i].posted == |t.drains[i].entries|
  }

  lemma {:induction false} FetchIsRemembered(s: State, steps: seq<Step>, j: nat)
    requires Run(s, steps).Some? && j < |steps| && steps[j].Fetch?
    ensures steps[j].req in Run(s, steps).value.fetchedAs
  {
    var init := steps[..|steps| - 1];
    if j < |init| {
      FetchIsRemembered(s, init, j);
    }
    FetchedGrows(Run(s, init).value, steps[|steps| - 1]);
  }

  lemma FetchedGrows(t: State, st: Step)
    requires Enabled(t, st)
    ensures t.fetchedAs.Keys + (if st.Fetch? then {st.req} else {}) <= Apply(t, st).fetchedAs.Keys
  {
  }

  /** Quiescence: when nothing is left to do, every request fetched in the run has been ended (once,
      by completion safety) and every record is back in the pool. */
  lemma {:induction false} AsyncQuiescence(s: State, steps: seq<Step>)
    requires Initial(s) && Run(s, steps).Some? && Quiescent(Run(s, steps).value)
    ensures var t := Run(s, steps).value;
            && (forall j :: 0 <= j < |steps| && steps[j].Fetch? ==> steps[j].req in t.log)
            && (forall r :: r in t.fetchedAs <==> r in t.log)
            && (forall r: nat :: r in t.free <==> r < |t.recs|)
  {
    QuiescentAllEnded(s, steps);
    forall j | 0 <= j < |steps| && steps[j].Fetch? ensures steps[j].req in Run(s, steps).value.log {
      FetchIsRemembered(s, steps, j);
    }
  }

  lemma PreviousOrNext(d: Drain, recs: seq<Record>)
    requires DrainOk(d, recs) && d.phase.InRequest?
    ensures d.items != [] && Last(d).rec < |recs| && (d.phase.left == [] ==> CanHang(d, recs))
  {
    if d.phase.left == [] {
      PreviousRecordExists(d, recs);
    }
  }

  lemma {:induction false} QuiescentAllEnded(s: State, steps: seq<Step>)
    requires Initial(s) && Run(s, steps).Some? && Quiescent(Run(s, steps).value)
    ensures var t := Run(s, steps).value;
            && (forall r :: r in t.fetchedAs <==> r in t.log)
            && (forall r: nat :: r in t.free <==> r < |t.recs|)
  {
    RunKeepsInv(s, steps);
    var t := Run(s, steps).value;
    forall i | 0 <= i < |t.drains| ensures t.drains[i].ended == |t.drains[i].items| {
      assert QueuedFor(t.drains[i], i, t.cq + t.sendq);
      assert Settled(t.drains[i]) && DrainOk(t.drains[i], t.recs);
      AllHandledAllEnded(t.drains[i]);
    }
    forall r | r in t.fetchedAs ensures r in t.log {
      assert FetchedAt(t.drains, t.fetchedAs[r], r);
    }
    forall r ensures r !in t.holder {
      if r in t.holder {
        HolderIsUnended(t.drains, t.holder, r);
      }
    }
  }

  lemma HolderIsUnended(drains: seq<Drain>, holder: map<nat, Spot>, r: nat)
    requires HolderOk(drains, holder) && r in holder
    ensures holder[r].0 < |drains| && drains[holder[r].0].ended < |drains[holder[r].0].items|
  {
    assert Unended(drains, holder[r].0, holder[r].1);
  }

  lemma AllHandledAllEnded(d: Drain)
    requires Layout(d) && Counters(d) && Settled(d) && d.phase.Posting? && d.handled == |d.entries|
    ensures d.ended == |d.items|
  {
    assert d.items != [] ==> Last(d) == d.items[|d.items| - 1];
  }

  /** No lost wakeup: unreaped completions mean a running handler or an event on its way. */
  lemma {:induction false} NoLostWakeup(s: State, steps: seq<Step>)
    requires Initial(s) && Run(s, steps).Some?
    ensures var t := Run(s, steps).value; t.cq != [] ==> !t.handler.Idle? || t.event
    ensures var t := Run(s, steps).value; t.handler.Idle? && !t.event ==> t.armed
  {
    RunKeepsInv(s, steps);
  }

  lemma FinishLeavesFree(t: State, d: nat, curr: nat)
    requires DrainsOk(t.drains, t.recs) && HolderOk(t.drains, t.holder) && Enabled(t, Finish(d))
    requires curr !in t.holder && curr < |t.recs|
    ensures |Apply(t, Finish(d)).recs| == |t.recs| && Apply(t, Finish(d)).recs[curr] == t.recs[curr]
  {
    var rec := FinishKeepsDrains(t, d);
  }

  lemma SegmentLeavesLinks(t: State, d: nat, curr: nat)
    requires Enabled(t, Segment(d)) && curr < |t.recs|
    ensures |Apply(t, Segment(d)).recs| == |t.recs| && Apply(t, Segment(d)).recs[curr].next == t.recs[curr].next
  {
  }

  lemma FetchLeavesLast(t: State, d: nat, req: nat, segs: seq<Transfer>, curr: nat)
    requires FreeOk(t.free, |t.recs|, t.holder) && Enabled(t, Fetch(d, req, segs))
    requires t.free[|t.free| - 1] == curr < |t.recs|
    ensures var u := Apply(t, Fetch(d, req, segs));
            && |u.recs| == |t.recs| && u.recs[curr] == t.recs[curr]
            && curr in u.free && curr !in u.holder
  {
    var u := Apply(t, Fetch(d, req, segs));
    assert curr in t.free && t.free[0] != curr;
    assert u.free[|u.free| - 1] == curr;
  }

  /** Walk after return: until the handler reads the link of a record it has given back, no step of
      anyone hands that record out or changes the link. */
  lemma {:induction false} ReturnedLinkIsStable(s: State, steps: seq<Step>, st: Step)
    requires Initial(s) && Run(s, steps).Some?
    requires var t := Run(s, steps).value; t.handler.Returned? && Enabled(t, st) && !st.Follow?
    ensures var t := Run(s, steps).value;
            var u := Apply(t, st);
            && u.handler == t.handler
            && t.handler.curr < |u.recs| == |t.recs|
            && u.recs[t.handler.curr].next == t.recs[t.handler.curr].next
            && t.handler.curr in u.free && t.handler.curr !in u.holder
  {
    RunKeepsInv(s, steps);
    StableStep(Run(s, steps).value, st);
  }

  lemma StableStep(t: State, st: Step)
    requires Inv(t) && t.handler.Returned? && Enabled(t, st) && !st.Follow?
    ensures var u := Apply(t, st);
            && u.handler == t.handler
            && t.handler.curr < |u.recs| == |t.recs|
            && u.recs[t.handler.curr].next == t.recs[t.handler.curr].next
            && t.handler.curr in u.free && t.handler.curr !in u.holder
  {
    var curr := t.handler.curr;
    assert curr in t.free;
    match st {
      case Fetch(d, req, segs) => FetchLeavesLast(t, d, req, segs, curr);
      case Segment(d) => SegmentLeavesLinks(t, d, curr);
      case Finish(d) => FinishLeavesFree(t, d, curr);
      case _ =>
    }
  }

  /** The code's unchecked dereferences are safe: whenever a step's turn has come, its guard holds. */
  lemma {:induction false} NothingIsDereferencedWrongly(s: State, steps: seq<Step>)
    requires Initial(s) && Run(s, steps).Some?
    ensures var t := Run(s, steps).value;
            && (|t.free| >= 2 ==> t.free[0] < |t.recs|)
            && (forall d :: 0 <= d < |t.drains| && t.drains[d].phase.InRequest? ==>
                  Enabled(t, if t.drains[d].phase.left == [] then Finish(d) else Segment(d)))
            && (t.handler.Polling? ==> Enabled(t, Poll))
            && (t.handler.Walking? ==> Enabled(t, End))
            && (t.handler.Returned? ==> Enabled(t, Follow))
  {
    RunKeepsInv(s, steps);
    var t := Run(s, steps).value;
    if |t.free| >= 2 {
      assert t.free[0] in t.free;
    }
    forall d | 0 <= d < |t.drains| && t.drains[d].phase.InRequest?
      ensures Enabled(t, if t.drains[d].phase.left == [] then Finish(d) else Segment(d))
    {
      assert DrainOk(t.drains[d], t.recs);
      PreviousOrNext(t.drains[d], t.recs);
    }
    HandlerIsEnabled(t);
  }

  lemma HandlerIsEnabled(t: State)
    requires Inv(t)
    ensures t.handler.Polling? ==> Enabled(t, Poll)
    ensures t.handler.Walking? ==> Enabled(t, End)
    ensures t.handler.Returned? ==> Enabled(t, Follow)
  {
    if t.handler.Polling? && t.cq != [] {
      PolledOwnerExists(t);
    }
    if t.handler.Walking? {
      assert DrainOk(t.drains[t.handler.drain], t.recs);
    }
  }

  lemma PolledOwnerExists(t: State)
    requires Inv(t) && t.handler.Polling? && t.cq != []
    ensures t.cq[0].owner < |t.recs| && t.cq[0].drain < |t.drains|
  {
    var q := t.cq + t.sendq;
    assert q[0] == t.cq[0];
    HeadOfQueue(t.drains, q);
    var d := q[0].drain;
    assert Settled(t.drains[d]);
    PostedMeansPosting(t.drains, t.recs, d);
    PollKeepsDrains(t.drains, t.recs, t.holder, d);
  }

  /** Giving a record back finds room: its error branches are unreachable. */
  lemma {:induction false} ReturnAlwaysFindsRoom(s: State, steps: seq<Step>)
    requires Initial(s) && Run(s, steps).Some? && Run(s, steps).value.handler.Walking?
    ensures var t := Run(s, steps).value; |t.free| < |t.recs| && t.handler.curr !in t.free
  {
    RunKeepsInv(s, steps);
    WalkedIsOut(Run(s, steps).value);
  }

  lemma WalkedIsOut(t: State)
    requires Inv(t) && t.handler.Walking?
    ensures |t.free| < |t.recs| && t.handler.curr !in t.free
  {
    var d := t.handler.drain;
    assert Unended(t.drains, d, t.drains[d].ended);
    MissingOne(t.free, |t.recs|, t.handler.curr);
  }
}
