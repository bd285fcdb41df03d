/**
 What one drain of MODE_ASYNC does while it builds, as a sequence of acts on its own entries, the shared
 records and the pool.  The device's code is shown to perform such a sequence, and every such
 sequence is a run of the protocol.
 */
module AsyncBuild {
  import opened Transfers
  import opened AsyncDrain

  /** Take: fetch a request and take a record.  Look: one segment.  Close: the end of a request. */
  datatype Act = Take(req: nat, segs: seq<Transfer>) | Look | Close

  datatype Stage = Stage(drain: Drain, recs: seq<Record>, free: seq<nat>)

  predicate Can(g: Stage, a: Act) {
    match a
    case Take(req, segs) =>
      && g.drain.phase.Between? && |g.free| >= 2 && g.free[0] < |g.recs|
      && segs != [] && AllSound(segs) && (g.drain.merge ==> Bytes(Ts(g.drain.entries)) + Bytes(segs) < U32)
    case Look =>
      && g.drain.phase.InRequest? && g.drain.phase.left != []
      && g.drain.items != [] && Last(g.drain).rec < |g.recs|
    case Close => g.drain.phase == InRequest([]) && CanHang(g.drain, g.recs)
  }

  function Do(g: Stage, a: Act): Stage
    requires Can(g, a)
  {
    match a
    case Take(req, segs) =>
      Stage(Fetched(g.drain, req, g.free[0], segs), g.recs[g.free[0] := Record(req, 0, None)], g.free[1..])
    case Look => Stage(Segmented(g.drain), Counted(g.drain, g.recs), g.free)
    case Close => Stage(Finished(g.drain), Hung(g.drain, g.recs), g.free)
  }

  function Replay(g: Stage, acts: seq<Act>): Option<Stage> {
    if acts == [] then Some(g) else
    match Replay(g, acts[..|acts| - 1])
    case None => None
    case Some(h) => if Can(h, acts[|acts| - 1]) then Some(Do(h, acts[|acts| - 1])) else None
  }

  /** The acts lead from one stage to the other; folded away like the drain's invariant. */
  ghost predicate Leads(origin: Stage, acts: seq<Act>, g: Stage) {
    forall n: int {:trigger Key(n)} :: Key(n) ==> Replay(origin, acts) == Some(g)
  }

  lemma {:induction false} LeadsNowhere(g: Stage)
    ensures Leads(g, [], g)
  {
  }

  lemma {:induction false} LeadsOn(origin: Stage, acts: seq<Act>, g: Stage, a: Act)
    requires Leads(origin, acts, g) && Can(g, a)
    ensures Leads(origin, acts + [a], Do(g, a))
  {
    assert Key(0);
    assert (acts + [a])[..|acts + [a]| - 1] == acts;
  }

  lemma {:induction false} LeadsReplays(origin: Stage, acts: seq<Act>, g: Stage)
    requires Leads(origin, acts, g)
    ensures Replay(origin, acts) == Some(g)
  {
    assert Key(0);
  }
}
