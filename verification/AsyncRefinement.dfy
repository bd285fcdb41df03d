/**
 The code of rmem_request_async is a run of the protocol: from any state of the protocol whose records
 and pool are the device's, the acts of a drain followed by its submission and posts are steps of the
 protocol and lead to a state with the very records, pool, drain and posted work requests the code
 leaves behind.
 */
module AsyncRefinement {
  import opened Transfers
  import opened BlockLayer
  import opened Batching
  import opened RingPool
  import opened AsyncDrain
  import opened AsyncBuild
  import opened AsyncProtocol
  import AsyncDevice
  import Verbs

  /** The block layer hands out each request once. */
  ghost predicate NewRequests(s: State, reqs: seq<nat>) {
    Distinct(reqs) && forall k :: 0 <= k < |reqs| ==> reqs[k] !in s.fetchedAs
  }

  /** t is s with one more drain at stage g, and nothing else that the code can see changed. */
  ghost predicate Added(s: State, t: State, g: Stage) {
    && t.drains == s.drains + [g.drain] && t.recs == g.recs && t.free == g.free
    && t.merge == s.merge && t.sendq == s.sendq && t.cq == s.cq && t.log == s.log
    && t.armed == s.armed && t.event == s.event && t.handler == s.handler
    && (forall r :: r in t.fetchedAs ==> r in s.fetchedAs || r in Reqs(g.drain))
  }

  function StepOf(a: Act, d: nat): Step {
    match a
    case Take(req, segs) => Fetch(d, req, segs)
    case Look => Step.Segment(d)
    case Close => Finish(d)
  }

  lemma {:induction false} RunOn(s: State, steps: seq<Step>, t: State, st: Step)
    requires Run(s, steps) == Some(t) && Enabled(t, st)
    ensures Run(s, steps + [st]) == Some(Apply(t, st))
  {
    assert (steps + [st])[..|steps + [st]| - 1] == steps;
  }

  /** What an act does to the names of the drain's requests. */
  lemma ActNames(g: Stage, a: Act)
    requires Can(g, a)
    ensures Reqs(Do(g, a).drain) == Reqs(g.drain) + (if a.Take? then [a.req] else [])
    ensures Reqs(g.drain) <= Reqs(Do(g, a).drain)
  {
  }

  lemma ActIsStep(s: State, t: State, g: Stage, a: Act)
    requires Added(s, t, g) && Can(g, a) && NewRequests(s, Reqs(Do(g, a).drain))
    ensures Enabled(t, StepOf(a, |s.drains|)) && Added(s, Apply(t, StepOf(a, |s.drains|)), Do(g, a))
  {
    ActNames(g, a);
    var names := Reqs(Do(g, a).drain);
    assert t.drains[|s.drains|] == g.drain;
    if a.Take? {
      assert names[|Reqs(g.drain)|] == a.req;
      forall k | 0 <= k < |Reqs(g.drain)| ensures Reqs(g.drain)[k] != a.req {
        assert names[k] == Reqs(g.drain)[k];
      }
    }
    var u := Apply(t, StepOf(a, |s.drains|));
    assert u.drains == s.drains + [Do(g, a).drain];
    forall r | r in u.fetchedAs ensures r in s.fetchedAs || r in names {
      assert a.Take? && r == a.req ==> r == names[|Reqs(g.drain)|];
    }
  }

  lemma PrefixIsNew(s: State, shorter: seq<nat>, longer: seq<nat>)
    requires NewRequests(s, longer) && shorter <= longer
    ensures NewRequests(s, shorter)
  {
    assert forall k :: 0 <= k < |shorter| ==> shorter[k] == longer[k];
  }

  /** The acts of a drain are a run. */
  lemma {:induction false} ReplayIsRun(s: State, acts: seq<Act>, g: Stage) returns (steps: seq<Step>, t: State)
    requires Replay(Stage(FreshDrain(s.merge), s.recs, s.free), acts) == Some(g) && NewRequests(s, Reqs(g.drain))
    ensures Run(s, steps) == Some(t) && Added(s, t, g)
  {
    if acts == [] {
      steps, t := [] + [Start], Apply(s, Start);
      RunOn(s, [], s, Start);
    } else {
      var init, a := acts[..|acts| - 1], acts[|acts| - 1];
      var h := Replay(Stage(FreshDrain(s.merge), s.recs, s.free), init).value;
      ActNames(h, a);
      PrefixIsNew(s, Reqs(h.drain), Reqs(g.drain));
      steps, t := ReplayIsRun(s, init, h);
      ActIsStep(s, t, h, a);
      RunOn(s, steps, t, StepOf(a, |s.drains|));
      steps, t := steps + [StepOf(a, |s.drains|)], Apply(t, StepOf(a, |s.drains|));
    }
  }

  /** The first n entries of a drain as posted work requests. */
  function Posts(d: nat, es: seq<Entry>, n: nat): (ws: seq<Wire>)
    requires n <= |es|
    ensures |ws| == n
  {
    seq(n, i requires 0 <= i < n => Wire(d, es[i].owner))
  }

  /** State t after n of the last drain's entries were posted. */
  function Posted(t: State, n: nat): State
    requires t.drains != [] && n <= |t.drains[|t.drains| - 1].entries|
  {
    var d := |t.drains| - 1;
    t.(drains := t.drains[d := t.drains[d].(phase := Posting, posted := n)],
       sendq := t.sendq + Posts(d, t.drains[d].entries, n))
  }

  lemma PostOneMore(t: State, n: nat)
    requires t.drains != [] && n < |t.drains[|t.drains| - 1].entries|
    ensures Enabled(Posted(t, n), Post(|t.drains| - 1))
    ensures Apply(Posted(t, n), Post(|t.drains| - 1)) == Posted(t, n + 1)
  {
    var d := |t.drains| - 1;
    var es := t.drains[d].entries;
    assert Posts(d, es, n + 1) == Posts(d, es, n) + [Wire(d, es[n].owner)];
    assert t.sendq + Posts(d, es, n) + [Wire(d, es[n].owner)] == t.sendq + Posts(d, es, n + 1);
    assert Apply(Posted(t, n), Post(d)).drains == Posted(t, n + 1).drains;
  }

  lemma {:induction false} PostAll(s: State, steps: seq<Step>, t: State, n: nat) returns (all: seq<Step>)
    requires Run(s, steps) == Some(t) && t.drains != [] && n <= |t.drains[|t.drains| - 1].entries|
    requires t.drains[|t.drains| - 1].phase.Between? && t.drains[|t.drains| - 1].posted == 0
    ensures Run(s, all) == Some(Posted(t, n))
  {
    var d := |t.drains| - 1;
    if n == 0 {
      RunOn(s, steps, t, Submit(d));
      assert t.sendq + [] == t.sendq;
      all := steps + [Submit(d)];
    } else {
      all := PostAll(s, steps, t, n - 1);
      PostOneMore(t, n - 1);
      RunOn(s, all, Posted(t, n - 1), Post(d));
      all := all + [Post(d)];
    }
  }

  lemma {:induction false} RunConcat(s: State, a: seq<Step>, t: State, b: seq<Step>)
    requires Run(s, a) == Some(t)
    ensures Run(s, a + b) == Run(t, b)
  {
    if b == [] {
      assert a + b == a;
    } else {
      assert (a + b)[..|a + b| - 1] == a + b[..|b| - 1];
      RunConcat(s, a, t, b[..|b| - 1]);
    }
  }

  /** What rmem_request_async does, from any reachable state, is a continuation of the run: it ends in a
      reachable state with the records and the pool the code leaves, its drain added and fully posted,
      and its work requests behind those already queued. */
  lemma {:induction false} DrainIsReached(init: State, before: seq<Step>, s: State, acts: seq<Act>, g: Stage)
    returns (all: seq<Step>, t: State)
    requires Run(init, before) == Some(s)
    requires Replay(Stage(FreshDrain(s.merge), s.recs, s.free), acts) == Some(g) && NewRequests(s, Reqs(g.drain))
    requires g.drain.phase.Between? && g.drain.posted == 0
    ensures before <= all && Run(init, all) == Some(t)
    ensures t.drains == s.drains + [g.drain.(phase := Posting, posted := |g.drain.entries|)]
    ensures t.recs == g.recs && t.free == g.free
    ensures t.sendq == s.sendq + Posts(|s.drains|, g.drain.entries, |g.drain.entries|)
  {
    var steps, u := ReplayIsRun(s, acts, g);
    assert u.drains[|u.drains| - 1] == g.drain;
    var more := PostAll(s, steps, u, |g.drain.entries|);
    t := Posted(u, |g.drain.entries|);
    RunConcat(init, before, s, more);
    all := before + more;
  }

  /** The code itself: called in any reachable state of the protocol, rmem_request_async leaves the device
      in a reachable state of the protocol. */
  method CodeIsRun(dev: AsyncDevice.Device, q: seq<Request>, rdmaReq: array<Entry>,
                   ghost init: State, ghost before: seq<Step>, ghost s: State)
    returns (ghost all: seq<Step>, ghost t: State, ghost posted: seq<Verbs.Wire>)
    requires Initial(init) && Run(init, before) == Some(s)
    requires dev.pool.Valid() && s.merge == dev.merge && s.recs == dev.recs[..] && s.free == dev.pool.Contents()
    requires |s.free| > |FsIds(q)| && NewRequests(s, FsIds(q))
    requires AsyncDevice.Buildable(dev.merge, q) && |AsyncRun(dev.merge, QueueTransfers(Rounded, q))| < rdmaReq.Length
    modifies dev`drain, dev`acts, dev`origin, dev`failed, dev`sendq, dev.recs, rdmaReq, dev.pool`head, dev.pool`taken, dev.pool.data
    ensures before <= all && Run(init, all) == Some(t) && dev.pool.Valid()
    ensures t.recs == dev.recs[..] && t.free == dev.pool.Contents() && t.drains == s.drains + [dev.drain]
    ensures dev.sendq == old(dev.sendq) + posted && |t.sendq| == |s.sendq| + |posted| && s.sendq <= t.sendq
    ensures forall i :: 0 <= i < |posted| ==> t.sendq[|s.sendq| + i] == Wire(|s.drains|, posted[i].wrId)
    ensures Verbs.Carried(posted) == AllAt(dev.ctx.remVaddr, AsyncRun(dev.merge, QueueTransfers(Rounded, q)))
    ensures Reqs(dev.drain) == FsIds(q)
  {
    ReachableFree(init, before, s);
    posted := dev.RequestAsync(q, rdmaReq);
    ghost var g := Stage(dev.drain.(phase := Between, posted := 0), dev.recs[..], dev.pool.Contents());
    assert Reqs(g.drain) == FsIds(q);
    all, t := DrainIsReached(init, before, s, dev.acts, g);
    forall i | 0 <= i < |posted| ensures t.sendq[|s.sendq| + i] == Wire(|s.drains|, posted[i].wrId) {
      assert Verbs.WrIds(posted)[i] == AsyncDevice.Owners(dev.drain.entries)[i];
    }
  }

  lemma {:induction false} ReachableFree(init: State, before: seq<Step>, s: State)
    requires Initial(init) && Run(init, before) == Some(s)
    ensures Distinct(s.free) && forall r :: r in s.free ==> r < |s.recs|
  {
    RunKeepsInv(init, before);
  }
}
