/**
 One drain of MODE_ASYNC: what rmem_request_async builds, and how its completions are consumed.

 A drain turns the requests it fetches into an array of entries (one work request each, tagged with
 the batch record of the request that created it).  A request whose segments were all merged into
 earlier work requests owns no entry; its record hangs on the previous record's `next`.  The layout
 is simple once one notes the value of rdma_req_count when a request is fetched (`lo`) and when it is
 finished (`hi`): the request owns exactly the entries in between.
 */
module AsyncDrain {
  import opened Transfers
  import opened Batching

  datatype Record = Record(req: nat, outstanding: int, next: Option<nat>)

  datatype Entry = Entry(t: Transfer, owner: nat)

  datatype Item = Item(req: nat, rec: nat, segs: seq<Transfer>, lo: nat, hi: nat)

  datatype Phase = Between | InRequest(left: seq<Transfer>) | Posting

  /** `merge` is MERGE_REQ, `handled` counts entries whose completion was handled, `ended` items whose
      request was ended. */
  datatype Drain = Drain(merge: bool, entries: seq<Entry>, items: seq<Item>, phase: Phase, posted: nat, handled: nat, ended: nat)

  function FreshDrain(merge: bool): Drain {
    Drain(merge, [], [], Between, 0, 0, 0)
  }

  function Ts(es: seq<Entry>): (ts: seq<Transfer>)
    ensures |ts| == |es|
  {
    seq(|es|, i requires 0 <= i < |es| => es[i].t)
  }

  function ItemMoves(items: seq<Item>): seq<Move> {
    if items == [] then [] else ItemMoves(items[..|items| - 1]) + AllMoves(items[|items| - 1].segs)
  }

  function Max(a: int, b: int): int {
    if a < b then b else a
  }

  function Last(d: Drain): Item
    requires d.items != []
  {
    d.items[|d.items| - 1]
  }

  /** The requests of a drain, in fetch order. */
  function Reqs(d: Drain): (rs: seq<nat>)
    ensures |rs| == |d.items|
  {
    seq(|d.items|, k requires 0 <= k < |d.items| => d.items[k].req)
  }

  // ---------------------------------------------------------------- invariants of one drain

  /** Items own consecutive stretches of the entries. */
  predicate Layout(d: Drain) {
    && (forall k :: 0 <= k < |d.items| ==> d.items[k].lo <= d.items[k].hi)
    && (forall k, l :: 0 <= k < l < |d.items| ==> d.items[k].hi <= d.items[l].lo)
    && (forall k, l :: 0 <= k < |d.items| && l == k + 1 < |d.items| ==> d.items[l].lo == d.items[k].hi)
    && (d.items != [] ==> d.items[0].lo == 0)
    && |d.entries| == (if d.items == [] then 0 else Last(d).hi)
  }

  predicate Owned(d: Drain) {
    forall k, j :: 0 <= k < |d.items| && 0 <= j < |d.entries| && d.items[k].lo <= j < d.items[k].hi ==>
      d.entries[j].owner == d.items[k].rec
  }

  /** The first request of a drain always owns an entry: there was nothing to merge it into. */
  predicate FirstOwns(d: Drain) {
    && (d.items != [] && d.items[0].segs != [] ==> d.items[0].hi >= 1)
    && (forall k :: 0 <= k < |d.items| ==> d.items[k].segs != [] || (d.phase.InRequest? && k == |d.items| - 1))
    && (d.phase.InRequest? ==> d.items != [] && (Last(d).segs != [] || d.phase.left != []))
  }

  predicate Counters(d: Drain) {
    && d.handled <= d.posted <= |d.entries| && d.ended <= |d.items|
    && (!d.phase.Posting? ==> d.posted == 0 && d.ended == 0)
    && (forall k :: 0 <= k < d.ended ==> d.items[k].hi <= d.handled)
    && (forall k :: d.ended <= k < |d.items| ==> d.items[k].hi >= d.handled)
  }

  /** No request is waiting to be ended: every request left still has an unhandled entry. */
  predicate Settled(d: Drain) {
    d.phase.Posting? ==> forall k :: d.ended <= k < |d.items| ==> d.items[k].hi > d.handled
  }

  /** The record of every request not yet ended counts its unhandled entries. */
  predicate Recorded(d: Drain, recs: seq<Record>) {
    forall k :: d.ended <= k < |d.items| ==>
      && d.items[k].rec < |recs|
      && recs[d.items[k].rec].req == d.items[k].req
      && recs[d.items[k].rec].outstanding == d.items[k].hi - Max(d.items[k].lo, d.handled)
  }

  /** Item l, which follows item k, hangs on it: it is finished and owns no entry. */
  predicate Hangs(d: Drain, k: nat, l: nat)
    requires k < |d.items| && l < |d.items|
  {
    l == k + 1 && !(d.phase.InRequest? && l == |d.items| - 1) && d.items[l].lo == d.items[l].hi
  }

  /** `next` links exactly the items that hang; in particular the chains are acyclic. */
  predicate Chained(d: Drain, recs: seq<Record>) {
    && (forall k, l :: d.ended <= k < |d.items| && l == k + 1 < |d.items| && d.items[k].rec < |recs| ==>
          recs[d.items[k].rec].next == if Hangs(d, k, l) then Some(d.items[l].rec) else None)
    && (d.ended < |d.items| && Last(d).rec < |recs| ==> recs[Last(d).rec].next == None)
  }

  /** The bytes of the first k+1 requests are all carried by the first `hi` entries. */
  predicate CarriedUpTo(d: Drain, k: int) {
    && 0 <= k < |d.items| && d.items[k].hi <= |d.entries|
    && ItemMoves(d.items[..k + 1]) <= AllMoves(Ts(d.entries[..d.items[k].hi]))
  }

  predicate Carries(d: Drain) {
    && AllMoves(Ts(d.entries)) == ItemMoves(d.items)
    && AllSound(Ts(d.entries)) && (d.merge ==> Bytes(Ts(d.entries)) < U32)
    && forall k :: 0 <= k < |d.items| ==> CarriedUpTo(d, k)
  }

  /** The work still to be built is well-formed and merging it will not overflow the 32-bit lengths. */
  predicate Feasible(d: Drain) {
    d.phase.InRequest? ==> AllSound(d.phase.left) && (d.merge ==> Bytes(Ts(d.entries)) + Bytes(d.phase.left) < U32)
  }

  predicate DrainOk(d: Drain, recs: seq<Record>) {
    && Layout(d) && Owned(d) && FirstOwns(d) && Counters(d)
    && Recorded(d, recs) && Chained(d, recs) && Carries(d) && Feasible(d)
  }

  /** The record is not one the drain still holds. */
  predicate Foreign(d: Drain, rec: nat) {
    forall k :: d.ended <= k < |d.items| ==> d.items[k].rec != rec
  }

  /** Records still held by the drain are distinct. */
  predicate DistinctRecs(d: Drain) {
    forall k, l :: d.ended <= k < l < |d.items| ==> d.items[k].rec != d.items[l].rec
  }

  /** The whole invariant, folded away: only proofs that call `Unseal` look inside. */
  ghost predicate Sealed(d: Drain, recs: seq<Record>) {
    forall n: int {:trigger Key(n)} :: Key(n) ==> DrainOk(d, recs) && DistinctRecs(d)
  }

  lemma Unseal(d: Drain, recs: seq<Record>)
    requires Sealed(d, recs)
    ensures DrainOk(d, recs) && DistinctRecs(d)
  {
    assert Key(0);
  }

  lemma Seal(d: Drain, recs: seq<Record>)
    requires DrainOk(d, recs) && DistinctRecs(d)
    ensures Sealed(d, recs)
  {
  }

  /** The two drains hold the same requests and records and ended the same ones. */
  predicate SameHeld(d: Drain, n: Drain) {
    && |n.items| == |d.items| && n.ended == d.ended
    && forall k :: 0 <= k < |d.items| ==> n.items[k].rec == d.items[k].rec && n.items[k].req == d.items[k].req
  }

  /** A drain does not notice changes to records it does not hold. */
  lemma ForeignChange(d: Drain, recs: seq<Record>, rec: nat, r: Record)
    requires DrainOk(d, recs) && Foreign(d, rec) && rec < |recs|
    ensures DrainOk(d, recs[rec := r])
  {
  }

  /** What only depends on what was built. */
  lemma SameBuild(d: Drain, n: Drain)
    requires n.entries == d.entries && n.items == d.items && n.merge == d.merge
    ensures Layout(d) ==> Layout(n)
    ensures Owned(d) ==> Owned(n)
    ensures Carries(d) ==> Carries(n)
  {
    if Carries(d) {
      forall k | 0 <= k < |n.items| ensures CarriedUpTo(n, k) {
        assert CarriedUpTo(d, k);
      }
    }
  }

  // ---------------------------------------------------------------- building

  function Fetched(d: Drain, req: nat, rec: nat, segs: seq<Transfer>): Drain {
    d.(items := d.items + [Item(req, rec, [], |d.entries|, |d.entries|)], phase := InRequest(segs))
  }

  lemma FetchedLayout(d: Drain, n: Drain)
    requires Layout(d)
    requires n.entries == d.entries && |n.items| == |d.items| + 1 && n.items[..|d.items|] == d.items
    requires n.items[|d.items|].lo == n.items[|d.items|].hi == |d.entries|
    ensures Layout(n)
  {
    assert forall k :: 0 <= k < |d.items| ==> n.items[k] == d.items[k];
  }

  lemma FetchedOwned(d: Drain, n: Drain)
    requires Owned(d)
    requires n.entries == d.entries && |n.items| == |d.items| + 1 && n.items[..|d.items|] == d.items
    requires n.items[|d.items|].lo == n.items[|d.items|].hi
    ensures Owned(n)
  {
    assert forall k :: 0 <= k < |d.items| ==> n.items[k] == d.items[k];
  }

  lemma FetchedCounters(d: Drain, n: Drain)
    requires FirstOwns(d) && Counters(d) && d.phase.Between?
    requires n.phase.InRequest? && n.phase.left != [] && n.items != []
    requires n == d.(items := d.items + [Last(n)], phase := n.phase) && Last(n).segs == []
    ensures FirstOwns(n) && Counters(n)
  {
  }

  lemma FetchedRecorded(d: Drain, recs: seq<Record>, req: nat, rec: nat, segs: seq<Transfer>)
    requires Recorded(d, recs) && Chained(d, recs) && Counters(d) && d.phase.Between?
    requires rec < |recs| && Foreign(d, rec)
    ensures Recorded(Fetched(d, req, rec, segs), recs[rec := Record(req, 0, None)])
    ensures Chained(Fetched(d, req, rec, segs), recs[rec := Record(req, 0, None)])
  {
  }

  lemma FetchedCarries(d: Drain, n: Drain)
    requires Carries(d)
    requires n.entries == d.entries && n.merge == d.merge && |n.items| == |d.items| + 1 && n.items[..|d.items|] == d.items
    requires n.items[|d.items|].segs == [] && n.items[|d.items|].hi == |d.entries|
    ensures Carries(n)
  {
    assert n.items[..|n.items| - 1] == d.items;
    assert ItemMoves(n.items) == ItemMoves(d.items);
    forall k | 0 <= k < |n.items| ensures CarriedUpTo(n, k) {
      if k < |d.items| {
        assert CarriedUpTo(d, k);
        assert n.items[..k + 1] == d.items[..k + 1] && n.items[k] == d.items[k];
      } else {
        assert n.items[..k + 1] == n.items && n.entries[..n.items[k].hi] == n.entries;
      }
    }
  }

  /** get_batch_request and the initialisation of the record. */
  lemma {:induction false} FetchedOk(d: Drain, recs: seq<Record>, req: nat, rec: nat, segs: seq<Transfer>)
    requires DrainOk(d, recs) && d.phase.Between?
    requires segs != [] && AllSound(segs) && (d.merge ==> Bytes(Ts(d.entries)) + Bytes(segs) < U32)
    requires rec < |recs| && Foreign(d, rec)
    ensures DrainOk(Fetched(d, req, rec, segs), recs[rec := Record(req, 0, None)])
  {
    var n := Fetched(d, req, rec, segs);
    FetchedLayout(d, n);
    FetchedOwned(d, n);
    FetchedCounters(d, n);
    FetchedRecorded(d, recs, req, rec, segs);
    FetchedCarries(d, n);
  }

  // ---------------------------------------------------------------- one segment

  predicate Merges(merge: bool, es: seq<Entry>, t: Transfer) {
    merge && es != [] && Mergeable(es[|es| - 1].t, t)
  }

  /** Extends the newest entry, whoever owns it, or adds one owned by the current request. */
  function Place(merge: bool, es: seq<Entry>, t: Transfer, owner: nat): (r: seq<Entry>)
    ensures |r| == if Merges(merge, es, t) then |es| else |es| + 1
  {
    if Merges(merge, es, t) then es[|es| - 1 := es[|es| - 1].(t := Merged(es[|es| - 1].t, t))] else es + [Entry(t, owner)]
  }

  lemma PlaceIsCoalesce(merge: bool, es: seq<Entry>, t: Transfer, owner: nat)
    ensures Ts(Place(merge, es, t, owner)) == Coalesce(merge, Ts(es), t)
  {
  }

  function Segmented(d: Drain): Drain
    requires d.phase.InRequest? && d.phase.left != [] && d.items != []
  {
    var t, last := d.phase.left[0], Last(d);
    var es := Place(d.merge, d.entries, t, last.rec);
    d.(entries := es, phase := InRequest(d.phase.left[1..]),
       items := d.items[|d.items| - 1 := last.(segs := last.segs + [t], hi := |es|)])
  }

  /** outstanding_reqs grows when the segment made a new entry. */
  function Counted(d: Drain, recs: seq<Record>): seq<Record>
    requires d.phase.InRequest? && d.phase.left != [] && d.items != [] && Last(d).rec < |recs|
  {
    if Merges(d.merge, d.entries, d.phase.left[0]) then recs
    else recs[Last(d).rec := recs[Last(d).rec].(outstanding := recs[Last(d).rec].outstanding + 1)]
  }

  lemma SegmentedLayout(d: Drain)
    requires d.phase.InRequest? && d.phase.left != [] && d.items != []
    requires Layout(d)
    ensures Layout(Segmented(d))
  {
  }

  lemma SegmentedOwned(d: Drain)
    requires d.phase.InRequest? && d.phase.left != [] && d.items != []
    requires Layout(d) && Owned(d)
    ensures Owned(Segmented(d))
  {
  }

  lemma SegmentedCounters(d: Drain)
    requires d.phase.InRequest? && d.phase.left != []
    requires Layout(d) && FirstOwns(d) && Counters(d)
    ensures FirstOwns(Segmented(d)) && Counters(Segmented(d))
  {
  }

  lemma SegmentedRecorded(d: Drain, recs: seq<Record>)
    requires d.phase.InRequest? && d.phase.left != [] && d.items != []
    requires Counters(d) && Recorded(d, recs) && DistinctRecs(d)
    requires Last(d).hi == |d.entries| >= Last(d).lo
    ensures Recorded(Segmented(d), Counted(d, recs))
  {
  }

  lemma SegmentedChained(d: Drain, recs: seq<Record>)
    requires d.phase.InRequest? && d.phase.left != [] && d.items != []
    requires Counters(d) && Chained(d, recs) && Last(d).rec < |recs|
    ensures Chained(Segmented(d), Counted(d, recs))
  {
    var n := Segmented(d);
    assert forall k :: 0 <= k < |d.items| - 1 ==> n.items[k] == d.items[k];
    assert forall r :: 0 <= r < |recs| ==> Counted(d, recs)[r].next == recs[r].next;
  }

  /** What placing one more segment does to any prefix of the entries. */
  lemma PlaceGrows(merge: bool, es: seq<Entry>, t: Transfer, owner: nat, hi: nat)
    requires AllSound(Ts(es)) && Sound(t) && (merge ==> Bytes(Ts(es)) + t.len < U32)
    requires hi <= |es|
    ensures AllMoves(Ts(es[..hi])) <= AllMoves(Ts(Place(merge, es, t, owner)[..hi]))
    ensures AllMoves(Ts(Place(merge, es, t, owner))) == AllMoves(Ts(es)) + Moves(t)
    ensures Bytes(Ts(Place(merge, es, t, owner))) == Bytes(Ts(es)) + t.len
    ensures AllSound(Ts(Place(merge, es, t, owner)))
  {
    var es' := Place(merge, es, t, owner);
    PlaceIsCoalesce(merge, es, t, owner);
    CoalesceKeepsMoves(merge, Ts(es), t);
    if hi == |es| && Merges(merge, es, t) {
      assert es'[..hi] == es' && es[..hi] == es;
    } else {
      assert es'[..hi] == es[..hi];
    }
  }

  lemma SegmentedItems(d: Drain, k: nat)
    requires d.phase.InRequest? && d.phase.left != [] && d.items != [] && k < |d.items|
    ensures k < |d.items| - 1 ==> ItemMoves(Segmented(d).items[..k + 1]) == ItemMoves(d.items[..k + 1])
    ensures ItemMoves(Segmented(d).items) == ItemMoves(d.items) + Moves(d.phase.left[0])
  {
    var n, m := Segmented(d), |d.items|;
    assert k < m - 1 ==> n.items[..k + 1] == d.items[..k + 1];
    assert n.items[..m - 1] == d.items[..m - 1];
    AllMovesSnoc(Last(d).segs, d.phase.left[0]);
    assert ItemMoves(d.items[..m - 1]) + (AllMoves(Last(d).segs) + Moves(d.phase.left[0])) ==
           (ItemMoves(d.items[..m - 1]) + AllMoves(Last(d).segs)) + Moves(d.phase.left[0]);
  }

  lemma SegmentedCarries(d: Drain)
    requires d.phase.InRequest? && d.phase.left != [] && d.items != []
    requires Carries(d) && Sound(d.phase.left[0]) && (d.merge ==> Bytes(Ts(d.entries)) + d.phase.left[0].len < U32)
    ensures Carries(Segmented(d))
    ensures Bytes(Ts(Segmented(d).entries)) == Bytes(Ts(d.entries)) + d.phase.left[0].len
  {
    var n, m, t := Segmented(d), |d.items|, d.phase.left[0];
    PlaceGrows(d.merge, d.entries, t, Last(d).rec, 0);
    SegmentedItems(d, 0);
    forall k | 0 <= k < m ensures CarriedUpTo(n, k) {
      if k < m - 1 {
        assert CarriedUpTo(d, k);
        assert n.items[k] == d.items[k];
        SegmentedItems(d, k);
        PlaceGrows(d.merge, d.entries, t, Last(d).rec, d.items[k].hi);
      } else {
        assert n.items[..k + 1] == n.items && n.entries[..n.items[k].hi] == n.entries;
      }
    }
  }

  lemma BytesFirst(ts: seq<Transfer>)
    requires ts != []
    ensures Bytes(ts) == ts[0].len + Bytes(ts[1..])
  {
    AllMovesConcat([ts[0]], ts[1..]);
    assert [ts[0]] + ts[1..] == ts;
    assert Bytes([ts[0]]) == Bytes([ts[0]][..0]) + ts[0].len;
  }

  lemma {:induction false} SegmentedOk(d: Drain, recs: seq<Record>)
    requires DrainOk(d, recs) && DistinctRecs(d) && d.phase.InRequest? && d.phase.left != []
    ensures DrainOk(Segmented(d), Counted(d, recs))
  {
    SegmentedLayout(d);
    SegmentedOwned(d);
    SegmentedCounters(d);
    SegmentedRecorded(d, recs);
    SegmentedChained(d, recs);
    BytesFirst(d.phase.left);
    SegmentedCarries(d);
  }

  // ---------------------------------------------------------------- the end of a request

  /** The previous record is there whenever the code dereferences it. */
  lemma PreviousRecordExists(d: Drain, recs: seq<Record>)
    requires DrainOk(d, recs) && d.phase == InRequest([])
    ensures Last(d).rec < |recs|
    ensures recs[Last(d).rec].outstanding == Last(d).hi - Last(d).lo >= 0
    ensures recs[Last(d).rec].outstanding == 0 ==> |d.items| >= 2 && d.items[|d.items| - 2].rec < |recs|
  {
    assert d.items[|d.items| - 1] == Last(d);
  }

  function Finished(d: Drain): Drain {
    d.(phase := Between)
  }

  /** The pointers followed at the end of a request are valid. */
  predicate CanHang(d: Drain, recs: seq<Record>) {
    && d.items != [] && Last(d).rec < |recs|
    && (recs[Last(d).rec].outstanding == 0 ==> |d.items| >= 2 && d.items[|d.items| - 2].rec < |recs|)
  }

  /** A request that owns no entry is hung on the one before it. */
  function Hung(d: Drain, recs: seq<Record>): seq<Record>
    requires d.items != [] && Last(d).rec < |recs|
    requires recs[Last(d).rec].outstanding == 0 ==> |d.items| >= 2 && d.items[|d.items| - 2].rec < |recs|
  {
    if recs[Last(d).rec].outstanding == 0
    then recs[d.items[|d.items| - 2].rec := recs[d.items[|d.items| - 2].rec].(next := Some(Last(d).rec))]
    else recs
  }

  lemma FinishedRecorded(d: Drain, recs: seq<Record>)
    requires d.items != [] && Last(d).rec < |recs|
    requires recs[Last(d).rec].outstanding == 0 ==> |d.items| >= 2 && d.items[|d.items| - 2].rec < |recs|
    requires Recorded(d, recs)
    ensures Recorded(Finished(d), Hung(d, recs))
  {
  }

  lemma FinishedChained(d: Drain, recs: seq<Record>)
    requires d.items != [] && Last(d).rec < |recs| && d.phase == InRequest([]) && d.ended == 0
    requires recs[Last(d).rec].outstanding == 0 ==> |d.items| >= 2 && d.items[|d.items| - 2].rec < |recs|
    requires recs[Last(d).rec].outstanding == Last(d).hi - Last(d).lo
    requires Chained(d, recs) && DistinctRecs(d)
    ensures Chained(Finished(d), Hung(d, recs))
  {
    var n, m := Finished(d), |d.items|;
    forall k, l | 0 <= k < m && l == k + 1 < m && n.items[k].rec < |recs|
      ensures Hung(d, recs)[n.items[k].rec].next == if Hangs(n, k, l) then Some(n.items[l].rec) else None
    {
      assert l < m - 1 ==> Hangs(n, k, l) == Hangs(d, k, l);
    }
  }

  lemma FinishedOk(d: Drain, recs: seq<Record>)
    requires DrainOk(d, recs) && DistinctRecs(d) && d.phase == InRequest([])
    ensures Last(d).rec < |recs|
    ensures recs[Last(d).rec].outstanding == 0 ==> |d.items| >= 2 && d.items[|d.items| - 2].rec < |recs|
    ensures DrainOk(Finished(d), Hung(d, recs))
  {
    PreviousRecordExists(d, recs);
    FinishedRecorded(d, recs);
    FinishedChained(d, recs);
    SameBuild(d, Finished(d));
  }

  /** Which record finishing a request writes to. */
  lemma HungAt(d: Drain, recs: seq<Record>) returns (k: nat)
    requires DrainOk(d, recs) && d.phase == InRequest([])
    ensures Last(d).rec < |recs|
    ensures recs[Last(d).rec].outstanding == 0 ==> |d.items| >= 2 && d.items[|d.items| - 2].rec < |recs|
    ensures d.ended <= k < |d.items| && d.items[k].rec < |recs|
    ensures Hung(d, recs) == recs[d.items[k].rec := Hung(d, recs)[d.items[k].rec]]
  {
    PreviousRecordExists(d, recs);
    k := if recs[Last(d).rec].outstanding == 0 then |d.items| - 2 else |d.items| - 1;
  }

  // ---------------------------------------------------------------- posting and completing

  function Submitted(d: Drain): Drain {
    d.(phase := Posting)
  }

  lemma SubmittedCounters(d: Drain)
    requires Layout(d) && FirstOwns(d) && Counters(d) && d.phase.Between?
    ensures FirstOwns(Submitted(d)) && Counters(Submitted(d)) && Settled(Submitted(d))
  {
  }

  lemma SubmittedRecords(d: Drain, recs: seq<Record>)
    requires d.phase.Between? && Recorded(d, recs) && Chained(d, recs)
    ensures Recorded(Submitted(d), recs) && Chained(Submitted(d), recs)
  {
  }

  lemma SubmittedOk(d: Drain, recs: seq<Record>)
    requires DrainOk(d, recs) && d.phase.Between?
    ensures DrainOk(Submitted(d), recs) && Settled(Submitted(d))
  {
    SameBuild(d, Submitted(d));
    SubmittedCounters(d);
    SubmittedRecords(d, recs);
  }

  function PostedOne(d: Drain): Drain {
    d.(posted := d.posted + 1)
  }

  lemma PostedRecords(d: Drain, recs: seq<Record>)
    requires Recorded(d, recs) && Chained(d, recs)
    ensures Recorded(PostedOne(d), recs) && Chained(PostedOne(d), recs)
  {
  }

  lemma PostedOk(d: Drain, recs: seq<Record>)
    requires DrainOk(d, recs) && d.phase.Posting? && d.posted < |d.entries|
    ensures DrainOk(PostedOne(d), recs)
    ensures Settled(d) ==> Settled(PostedOne(d))
  {
    SameBuild(d, PostedOne(d));
    PostedRecords(d, recs);
  }

  /** The entry whose completion comes next belongs to the first request not yet ended. */
  lemma NextCompletionOwner(d: Drain)
    requires Layout(d) && Owned(d) && Counters(d) && Settled(d)
    requires d.phase.Posting? && d.handled < d.posted
    ensures d.ended < |d.items| && d.items[d.ended].lo <= d.handled < d.items[d.ended].hi
    ensures d.entries[d.handled].owner == d.items[d.ended].rec
  {
    assert d.items != [] && Last(d) == d.items[|d.items| - 1];
    if d.ended > 0 {
      assert d.items[d.ended].lo == d.items[d.ended - 1].hi;
    }
  }

  function HandledOne(d: Drain): Drain {
    d.(handled := d.handled + 1)
  }

  function Decremented(recs: seq<Record>, rec: nat): seq<Record>
    requires rec < |recs|
  {
    recs[rec := recs[rec].(outstanding := recs[rec].outstanding - 1)]
  }

  lemma HandledRecorded(d: Drain, recs: seq<Record>)
    requires Layout(d) && Owned(d) && Counters(d) && Settled(d) && DistinctRecs(d)
    requires Recorded(d, recs)
    requires d.phase.Posting? && d.handled < d.posted
    ensures d.ended < |d.items| && d.items[d.ended].rec < |recs|
    ensures Recorded(HandledOne(d), Decremented(recs, d.items[d.ended].rec))
  {
    NextCompletionOwner(d);
  }

  lemma HandledChained(d: Drain, recs: seq<Record>, rec: nat)
    requires Chained(d, recs) && rec < |recs|
    ensures Chained(HandledOne(d), Decremented(recs, rec))
  {
    assert forall r :: 0 <= r < |recs| ==> Decremented(recs, rec)[r].next == recs[r].next;
  }

  lemma HandledCounters(d: Drain)
    requires Layout(d) && Owned(d) && Counters(d) && Settled(d)
    requires d.phase.Posting? && d.handled < d.posted
    ensures Counters(HandledOne(d))
    ensures d.ended < |d.items| && (d.items[d.ended].hi > d.handled + 1 ==> Settled(HandledOne(d)))
  {
    NextCompletionOwner(d);
  }

  /** One completion: the owner's counter drops, and reaches zero exactly at its last entry. */
  lemma HandledOk(d: Drain, recs: seq<Record>)
    requires DrainOk(d, recs) && DistinctRecs(d) && Settled(d)
    requires d.phase.Posting? && d.handled < d.posted
    ensures d.ended < |d.items| && d.items[d.ended].rec == d.entries[d.handled].owner < |recs|
    ensures DrainOk(HandledOne(d), Decremented(recs, d.items[d.ended].rec))
    ensures Decremented(recs, d.items[d.ended].rec)[d.items[d.ended].rec].outstanding == 0 <==>
            d.items[d.ended].hi == HandledOne(d).handled
    ensures d.items[d.ended].hi != HandledOne(d).handled ==> Settled(HandledOne(d))
  {
    NextCompletionOwner(d);
    HandledRecorded(d, recs);
    HandledChained(d, recs, d.items[d.ended].rec);
    HandledCounters(d);
    SameBuild(d, HandledOne(d));
  }

  // ---------------------------------------------------------------- ending requests

  function EndedOne(d: Drain): Drain {
    d.(ended := d.ended + 1)
  }

  lemma EndedRecords(d: Drain, recs: seq<Record>)
    requires Recorded(d, recs) && Chained(d, recs) && d.ended < |d.items|
    ensures Recorded(EndedOne(d), recs) && Chained(EndedOne(d), recs)
  {
  }

  lemma EndedOk(d: Drain, recs: seq<Record>)
    requires DrainOk(d, recs) && d.phase.Posting? && d.ended < |d.items| && d.items[d.ended].hi == d.handled
    ensures DrainOk(EndedOne(d), recs)
  {
    SameBuild(d, EndedOne(d));
    EndedRecords(d, recs);
  }

  /** Where the link of the item just ended leads. */
  predicate LinkAfter(d: Drain, link: Option<nat>)
    requires 1 <= d.ended <= |d.items|
  {
    link == if d.ended < |d.items| && Hangs(d, d.ended - 1, d.ended) then Some(d.items[d.ended].rec) else None
  }

  lemma EndedLink(d: Drain, recs: seq<Record>)
    requires DrainOk(d, recs) && d.phase.Posting? && d.ended < |d.items|
    ensures d.items[d.ended].rec < |recs|
    ensures LinkAfter(EndedOne(d), recs[d.items[d.ended].rec].next)
  {
    if d.ended + 1 < |d.items| {
      assert d.items[d.ended + 1] == d.items[d.ended + 1];
    } else {
      assert Last(d) == d.items[d.ended];
    }
  }

  /** The chain ends where the next request still waits for a completion. */
  lemma FollowedOk(d: Drain, link: Option<nat>)
    requires Layout(d) && Counters(d) && d.phase.Posting? && 1 <= d.ended <= |d.items|
    requires d.items[d.ended - 1].hi == d.handled && LinkAfter(d, link)
    ensures link.None? ==> Settled(d)
    ensures link.Some? ==> d.ended < |d.items| && d.items[d.ended].rec == link.value && d.items[d.ended].hi == d.handled
  {
    if d.ended < |d.items| {
      assert d.items[d.ended].lo == d.items[d.ended - 1].hi;
    }
  }
}
