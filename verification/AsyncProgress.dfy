/**
 Progress in MODE_ASYNC: from every reachable state the work in hand can be finished without taking on
 new work, so every fetched request can be ended.

 `Measure` orders the states: first what the drains still have to build and post, then what the adapter
 still has to complete, then unreaped completions, records still out, and the handler's position.
 `Advance` picks a step that makes it smaller.
 */
module AsyncProgress {
  import opened Transfers
  import opened RingPool
  import opened AsyncDrain
  import opened AsyncProtocol

  /** What a drain still has to do until everything is posted. */
  function Work(d: Drain): nat {
    (if d.posted <= |d.entries| then |d.entries| - d.posted else 0) +
    match d.phase
    case Posting => 0
    case Between => 1
    case InRequest(left) => 2 + 2 * |left|
  }

  function TotalWork(drains: seq<Drain>): nat {
    if drains == [] then 0 else TotalWork(drains[..|drains| - 1]) + Work(drains[|drains| - 1])
  }

  lemma {:induction false} TotalWorkUpdate(drains: seq<Drain>, d: nat, n: Drain)
    requires d < |drains|
    ensures TotalWork(drains[d := n]) == TotalWork(drains) - Work(drains[d]) + Work(n)
  {
    var last := |drains| - 1;
    if d == last {
      assert drains[d := n][..last] == drains[..last];
    } else {
      assert drains[d := n][..last] == drains[..last][d := n];
      TotalWorkUpdate(drains[..last], d, n);
    }
  }

  function Out(t: State): nat {
    if |t.free| <= |t.recs| then |t.recs| - |t.free| else 0
  }

  /** How far the handler is from rest. */
  function Position(t: State): nat {
    match t.handler
    case Returned(_, _) => 5
    case Walking(_, _) => 4
    case Polling => 2
    case Rearming => if t.cq == [] then 1 else 3
    case Idle => if t.cq == [] then 0 else 3
  }

  /** u is closer to rest than t, in lexicographic order. */
  predicate Closer(u: State, t: State) {
    var a, b := TotalWork(u.drains), TotalWork(t.drains);
    a < b || (a == b && (
    |u.sendq| < |t.sendq| || (|u.sendq| == |t.sendq| && (
    |u.cq| < |t.cq| || (|u.cq| == |t.cq| && (
    Out(u) < Out(t) || (Out(u) == Out(t) &&
    Position(u) < Position(t))))))))
  }

  /** One drain is replaced by one with less work, nothing else that is measured matters. */
  lemma WorkShrinks(t: State, u: State, d: nat, n: Drain)
    requires d < |t.drains| && u.drains == t.drains[d := n] && Work(n) < Work(t.drains[d])
    ensures Closer(u, t)
  {
    TotalWorkUpdate(t.drains, d, n);
  }

  /** One drain is replaced by one with the same work. */
  lemma WorkStays(t: State, u: State, d: nat, n: Drain)
    requires d < |t.drains| && u.drains == t.drains[d := n] && Work(n) == Work(t.drains[d])
    ensures TotalWork(u.drains) == TotalWork(t.drains)
  {
    TotalWorkUpdate(t.drains, d, n);
  }

  lemma SegmentedWork(d: Drain)
    requires d.phase.InRequest? && d.phase.left != [] && d.items != [] && d.posted <= |d.entries|
    ensures Work(Segmented(d)) < Work(d)
  {
  }

  lemma BuildAdvances(t: State, d: nat) returns (st: Step)
    requires d < |t.drains| && DrainOk(t.drains[d], t.recs) && t.drains[d].phase.InRequest?
    ensures Enabled(t, st) && !st.Start? && !st.Fetch? && Closer(Apply(t, st), t)
  {
    var dr := t.drains[d];
    PreviousOrNext(dr, t.recs);
    if dr.phase.left == [] {
      st := Finish(d);
      WorkShrinks(t, Apply(t, st), d, Finished(dr));
    } else {
      st := Segment(d);
      SegmentedWork(dr);
      WorkShrinks(t, Apply(t, st), d, Segmented(dr));
    }
  }

  lemma DrainAdvances(t: State, d: nat) returns (st: Step)
    requires d < |t.drains| && DrainOk(t.drains[d], t.recs)
    requires !(t.drains[d].phase.Posting? && t.drains[d].posted == |t.drains[d].entries|)
    ensures Enabled(t, st) && !st.Start? && !st.Fetch? && Closer(Apply(t, st), t)
  {
    var dr := t.drains[d];
    match dr.phase {
      case Between =>
        st := Submit(d);
        WorkShrinks(t, Apply(t, st), d, Submitted(dr));
      case Posting =>
        st := Post(d);
        WorkShrinks(t, Apply(t, st), d, PostedOne(dr));
      case InRequest(_) =>
        st := BuildAdvances(t, d);
    }
  }

  lemma PollAdvances(t: State)
    requires t.handler.Polling? && Enabled(t, Poll)
    ensures Closer(Apply(t, Poll), t)
  {
    if t.cq != [] {
      var d := t.cq[0].drain;
      WorkStays(t, Apply(t, Poll), d, HandledOne(t.drains[d]));
    }
  }

  lemma EndAdvances(t: State)
    requires Enabled(t, End) && |t.free| < |t.recs|
    ensures Closer(Apply(t, End), t)
  {
    var d := t.handler.drain;
    WorkStays(t, Apply(t, End), d, EndedOne(t.drains[d]));
  }

  lemma RestAdvances(t: State, st: Step)
    requires Enabled(t, st) && (st == Notify(t.cq != []) || st.Follow?)
    ensures Closer(Apply(t, st), t)
  {
  }

  /** The handler's next step. */
  function Next(t: State): Step
    requires !t.handler.Idle?
  {
    match t.handler
    case Polling => Poll
    case Rearming => Notify(t.cq != [])
    case Walking(_, _) => End
    case Returned(_, _) => Follow
  }

  lemma HandlerAdvances(t: State)
    requires Inv(t) && !t.handler.Idle?
    ensures Enabled(t, Next(t)) && Closer(Apply(t, Next(t)), t)
  {
    HandlerIsEnabled(t);
    if t.handler.Polling? {
      PollAdvances(t);
    } else if t.handler.Walking? {
      WalkedIsOut(t);
      EndAdvances(t);
    } else {
      RestAdvances(t, Next(t));
    }
  }

  /** Until everything is at rest, some step other than taking on new work brings it closer. */
  lemma Advance(t: State) returns (st: Step)
    requires Inv(t) && !Quiescent(t)
    ensures Enabled(t, st) && !st.Start? && !st.Fetch? && Closer(Apply(t, st), t)
  {
    if !t.handler.Idle? {
      st := Next(t);
      HandlerAdvances(t);
    } else if t.sendq != [] {
      st := Complete;
    } else if t.cq != [] {
      st := Wake;
    } else {
      var d :| 0 <= d < |t.drains| && !(t.drains[d].phase.Posting? && t.drains[d].posted == |t.drains[d].entries|);
      assert DrainOk(t.drains[d], t.recs);
      st := DrainAdvances(t, d);
    }
  }

  /** Nothing gets stuck: in every reachable state that is not at rest there is such a step. */
  lemma {:induction false} NeverStuck(s: State, steps: seq<Step>) returns (st: Step)
    requires Initial(s) && Run(s, steps).Some? && !Quiescent(Run(s, steps).value)
    ensures Enabled(Run(s, steps).value, st) && !st.Start? && !st.Fetch?
    ensures Closer(Apply(Run(s, steps).value, st), Run(s, steps).value)
  {
    RunKeepsInv(s, steps);
    st := Advance(Run(s, steps).value);
  }

  /** No step of the run from index n on takes on new work. */
  predicate NoNewWork(steps: seq<Step>, n: nat) {
    forall j :: n <= j < |steps| ==> !steps[j].Start? && !steps[j].Fetch?
  }

  lemma {:induction false} RunToRest(s: State, steps: seq<Step>, t: State) returns (all: seq<Step>)
    requires Initial(s) && Run(s, steps) == Some(t)
    ensures steps <= all && NoNewWork(all, |steps|) && Run(s, all).Some? && Quiescent(Run(s, all).value)
    decreases TotalWork(t.drains), |t.sendq|, |t.cq|, Out(t), Position(t)
  {
    if Quiescent(t) {
      all := steps;
    } else {
      RunKeepsInv(s, steps);
      var st := Advance(t);
      var longer := steps + [st];
      assert longer[..|longer| - 1] == steps;
      all := RunToRest(s, longer, Apply(t, st));
    }
  }

  /** Every run can be completed: without taking on new work it reaches a state in which every request
      it has fetched is ended, exactly once, and every record is back in the pool. */
  lemma {:induction false} CanAlwaysFinish(s: State, steps: seq<Step>) returns (all: seq<Step>)
    requires Initial(s) && Run(s, steps).Some?
    ensures steps <= all && NoNewWork(all, |steps|) && Run(s, all).Some?
    ensures var u := Run(s, all).value;
            && Quiescent(u) && Distinct(u.log)
            && (forall j :: 0 <= j < |steps| && steps[j].Fetch? ==> steps[j].req in u.log)
            && (forall r: nat :: r in u.free <==> r < |u.recs|)
  {
    all := RunToRest(s, steps, Run(s, steps).value);
    AsyncQuiescence(s, all);
    RunKeepsInv(s, all);
    forall j | 0 <= j < |steps| && steps[j].Fetch? ensures steps[j].req in Run(s, all).value.log {
      assert all[j] == steps[j];
    }
  }
}
