/**
 Progress in MODE_ONE: every guard the code leaves unchecked holds when its step's turn comes, and from
 every reachable state the work in hand can be finished without taking on new work.
 */
module OneProgress {
  import opened Transfers
  import opened RingPool
  import opened OneProtocol

  /** The submitter's next step, given by its position in the code. */
  function NextOf(u: Submission, i: nat): Step
    requires !u.pc.Done?
  {
    match u.pc
    case Segments => if u.at < |u.segs| then Segment(i) else Mark(i)
    case Flushing(_) => Flush(i)
    case Marked => PostLast(i)
  }

  /** The handler's next step. */
  function NextHandled(h: Handler): Step {
    match h
    case Ready => Reap
    case Counted(_, _) => Compare
    case Matched(_, _) => Check
    case Ending(_, _) => End
  }

  lemma SubmitterIsEnabled(t: State, i: nat)
    requires Inv(t) && i < |t.subs| && !t.subs[i].pc.Done?
    ensures Enabled(t, NextOf(t.subs[i], i))
  {
    assert SubOk(t.subs[i], t.recs);
  }

  lemma HandlerIsEnabled(t: State)
    requires Inv(t) && (t.handler.Ready? ==> t.wires != [])
    ensures Enabled(t, NextHandled(t.handler))
  {
    match t.handler {
      case Ready => ReapedIsOpen(t);
      case Counted(_, _) => CompareIsExact(t);
      case Matched(_, _) => CheckAlwaysSucceeds(t);
      case Ending(_, sub) => assert SubOk(t.subs[sub], t.recs);
    }
  }

  /** In every reachable state the records and submissions the next steps follow are there: for each
      submitter, for the handler, and for whoever takes the next record. */
  lemma {:induction false} NothingIsDereferencedWrongly(s: State, steps: seq<Step>)
    requires Initial(s) && Run(s, steps).Some?
    ensures var t := Run(s, steps).value;
            && (|t.free| >= 2 ==> t.free[0] < |t.recs|)
            && (forall i :: 0 <= i < |t.subs| && !t.subs[i].pc.Done? ==> Enabled(t, NextOf(t.subs[i], i)))
            && (!t.handler.Ready? || t.wires != [] ==> Enabled(t, NextHandled(t.handler)))
  {
    RunKeepsInv(s, steps);
    var t := Run(s, steps).value;
    if |t.free| >= 2 {
      assert t.free[0] in t.free;
    }
    forall i | 0 <= i < |t.subs| && !t.subs[i].pc.Done? ensures Enabled(t, NextOf(t.subs[i], i)) {
      SubmitterIsEnabled(t, i);
    }
    if !t.handler.Ready? || t.wires != [] {
      HandlerIsEnabled(t);
    }
  }

  // ---------------------------------------------------------------- getting closer to rest

  /** What a submission still has to look at and to post. */
  function Work(u: Submission): nat {
    var left := if u.at <= |u.segs| then |u.segs| - u.at else 0;
    match u.pc
    case Segments => 3 * left + 3
    case Flushing(_) => 3 * left + 2
    case Marked => 1
    case Done => 0
  }

  function TotalWork(subs: seq<Submission>): nat {
    if subs == [] then 0 else TotalWork(subs[..|subs| - 1]) + Work(subs[|subs| - 1])
  }

  lemma {:induction false} TotalWorkUpdate(subs: seq<Submission>, i: nat, u: Submission)
    requires i < |subs|
    ensures TotalWork(subs[i := u]) == TotalWork(subs) - Work(subs[i]) + Work(u)
  {
    var last := |subs| - 1;
    if i == last {
      assert subs[i := u][..last] == subs[..last];
    } else {
      assert subs[i := u][..last] == subs[..last][i := u];
      TotalWorkUpdate(subs[..last], i, u);
    }
  }

  function Position(h: Handler): nat {
    match h
    case Ready => 0
    case Ending(_, _) => 1
    case Matched(_, _) => 2
    case Counted(_, _) => 3
  }

  predicate Closer(u: State, t: State) {
    var a, b := TotalWork(u.subs), TotalWork(t.subs);
    a < b || (a == b && (|u.wires| < |t.wires| || (|u.wires| == |t.wires| && Position(u.handler) < Position(t.handler))))
  }

  lemma SubmitterAdvances(t: State, i: nat)
    requires Inv(t) && i < |t.subs| && !t.subs[i].pc.Done?
    ensures Enabled(t, NextOf(t.subs[i], i)) && Closer(Apply(t, NextOf(t.subs[i], i)), t)
  {
    SubmitterIsEnabled(t, i);
    assert BuildOk(t.subs[i]) by {
      assert SubOk(t.subs[i], t.recs);
    }
    var u := Apply(t, NextOf(t.subs[i], i)).subs[i];
    TotalWorkUpdate(t.subs, i, u);
  }

  lemma WorkStays(t: State, u: State, i: nat, n: Submission)
    requires i < |t.subs| && u.subs == t.subs[i := n] && Work(n) == Work(t.subs[i])
    ensures TotalWork(u.subs) == TotalWork(t.subs)
  {
    TotalWorkUpdate(t.subs, i, n);
  }

  lemma ReapAdvances(t: State)
    requires Enabled(t, Reap)
    ensures Closer(Apply(t, Reap), t)
  {
    var i := t.wires[0].sub;
    WorkStays(t, Apply(t, Reap), i, t.subs[i].(handled := t.subs[i].handled + 1));
  }

  lemma EndAdvances(t: State)
    requires Enabled(t, End)
    ensures Closer(Apply(t, End), t)
  {
    var i := t.handler.sub;
    WorkStays(t, Apply(t, End), i, t.subs[i].(ended := true));
  }

  lemma HandlerAdvances(t: State)
    requires Enabled(t, NextHandled(t.handler))
    ensures Closer(Apply(t, NextHandled(t.handler)), t)
  {
    match t.handler {
      case Ready => ReapAdvances(t);
      case Ending(_, _) => EndAdvances(t);
      case _ =>
    }
  }

  lemma Advance(t: State) returns (st: Step)
    requires Inv(t) && !Quiescent(t)
    ensures Enabled(t, st) && !st.Fetch? && Closer(Apply(t, st), t)
  {
    if !t.handler.Ready? || t.wires != [] {
      st := NextHandled(t.handler);
      HandlerIsEnabled(t);
      HandlerAdvances(t);
    } else {
      var i :| 0 <= i < |t.subs| && !t.subs[i].pc.Done?;
      st := NextOf(t.subs[i], i);
      SubmitterAdvances(t, i);
    }
  }

  /** Nothing gets stuck: in every reachable state that is not at rest, some step other than taking on
      new work is possible and brings it closer to rest. */
  lemma {:induction false} NeverStuck(s: State, steps: seq<Step>) returns (st: Step)
    requires Initial(s) && Run(s, steps).Some? && !Quiescent(Run(s, steps).value)
    ensures Enabled(Run(s, steps).value, st) && !st.Fetch?
    ensures Closer(Apply(Run(s, steps).value, st), Run(s, steps).value)
  {
    RunKeepsInv(s, steps);
    st := Advance(Run(s, steps).value);
  }

  predicate NoNewWork(steps: seq<Step>, n: nat) {
    forall j :: n <= j < |steps| ==> !steps[j].Fetch?
  }

  lemma {:induction false} RunToRest(s: State, steps: seq<Step>, t: State) returns (all: seq<Step>)
    requires Initial(s) && Run(s, steps) == Some(t)
    ensures steps <= all && NoNewWork(all, |steps|) && Run(s, all).Some? && Quiescent(Run(s, all).value)
    decreases TotalWork(t.subs), |t.wires|, Position(t.handler)
  {
    if Quiescent(t) {
      all := steps;
    } else {
      RunKeepsInv(s, steps);
      var st := Advance(t);
      var longer := steps + [st];
      assert longer[..|longer| - 1] == steps;
      all := RunToRest(s, longer, Apply(t, st));
    }
  }

  /** Every run can be completed: without taking on new work it reaches a state in which every request
      it has fetched is ended, exactly once, and every record is back in the pool. */
  lemma {:induction false} CanAlwaysFinish(s: State, steps: seq<Step>) returns (all: seq<Step>)
    requires Initial(s) && Run(s, steps).Some?
    ensures steps <= all && NoNewWork(all, |steps|) && Run(s, all).Some?
    ensures var u := Run(s, all).value;
            && Quiescent(u) && Distinct(u.log)
            && (forall r :: r in Run(s, steps).value.fetchedAs ==> r in u.log)
            && (forall r: nat :: r in u.free <==> r < |u.recs|)
  {
    all := RunToRest(s, steps, Run(s, steps).value);
    OneQuiescence(s, all);
    RunKeepsInv(s, all);
    FetchedStays(s, steps, all);
  }

  lemma FetchedGrows(t: State, st: Step)
    requires Enabled(t, st)
    ensures t.fetchedAs.Keys <= Apply(t, st).fetchedAs.Keys
  {
  }

  lemma {:induction false} FetchedStays(s: State, steps: seq<Step>, all: seq<Step>)
    requires steps <= all && Run(s, all).Some?
    ensures Run(s, steps).Some? && Run(s, steps).value.fetchedAs.Keys <= Run(s, all).value.fetchedAs.Keys
  {
    if |steps| < |all| {
      var init := all[..|all| - 1];
      FetchedStays(s, steps, init);
      FetchedGrows(Run(s, init).value, all[|all| - 1]);
    } else {
      assert steps == all;
    }
  }
}
