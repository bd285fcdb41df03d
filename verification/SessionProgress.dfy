/**
 Progress of the connection: from every reachable state the session in hand can be torn down, and from
 there another one can be set up, any number of times.

 `Next` is a schedule: whoever is not waiting for the other goes on, the server first.
 */
module SessionProgress {
  import opened Transfers
  import opened BootstrapText
  import opened Session

  /** Between sessions: nobody is connected, nothing is alive, nothing is unread. */
  predicate Idle(t: State) {
    t.client.pc.Out? && t.server.pc.Accept? && t.server.live == {} && t.c2s == [] && t.s2c == []
  }

  /** Both sides are in service. */
  predicate InService(t: State) {
    t.client.pc.Running? && t.server.pc.AcceptAgain?
  }

  function Next(t: State): Step {
    match t.server.pc
    case Accept => ClientReadDone([])
    case ReadSize => if t.client.pc.Connected? then ClientSendSize else ServerReadSize([])
    case Setup(_) => ServerCreate
    case SendRecord => ServerSendRecord(NO_RECORD)
    case AwaitClient =>
      if t.client.pc.AwaitRecord? then ClientReadRecord([])
      else if t.client.pc.GotRecord? then ClientSendRecord
      else ServerReadRecord([])
    case ToReceiveS => ServerModify
    case ToSendS => ServerModify
    case AcceptAgain =>
      if t.client.pc.Running? then CleanQueue else if t.client.pc.Cleaned? then Reconnect else ClientModify
    case AwaitTeardown => if t.client.pc.Reconnected? then ClientSendTeardown else ServerReadTeardown([])
    case Shutdown(_) => ServerDestroy
  }

  function ClientAhead(c: ClientPc): nat {
    match c
    case Out => 0
    case AwaitDone => 1
    case Reconnected => 2
    case Cleaned => 3
    case Running => 4
    case ToSend => 5
    case ToReceive => 6
    case ToInit => 7
    case GotRecord => 8
    case AwaitRecord => 9
    case Connected => 10
  }

  function ServerAhead(v: ServerPc): nat {
    match v
    case Accept => 0
    case Shutdown(k) => if k < 7 then 7 - k else 0
    case AwaitTeardown => 8
    case AcceptAgain => 9
    case ToSendS => 10
    case ToReceiveS => 11
    case AwaitClient => 12
    case SendRecord => 13
    case Setup(k) => 14 + (if k < 7 then 7 - k else 0)
    case ReadSize => 22
  }

  /** How much of the session is still ahead of the two programs. */
  function Ahead(t: State): nat {
    ClientAhead(t.client.pc) + ServerAhead(t.server.pc)
  }

  /** What a step does to the two programs: it moves them on and does not forget who is connected. */
  predicate MovesOn(t: State, u: State) {
    && Ahead(u) < Ahead(t) && u.client.own == t.client.own && u.client.size == t.client.size
    && (ClientAhead(t.client.pc) > 4 ==> ClientAhead(u.client.pc) >= 4)
    && (t.client.pc.Running? && !t.server.pc.AcceptAgain? ==> u.client.pc.Running?)
  }

  lemma SetupMovesOn(t: State)
    requires Inv(t) && (t.server.pc.ReadSize? || t.server.pc.Setup? || t.server.pc.SendRecord?)
    ensures Enabled(t, Next(t)) && !Next(t).Connect? && MovesOn(t, Apply(t, Next(t)))
  {
  }

  lemma ExchangeMovesOn(t: State)
    requires Inv(t) && t.server.pc.AwaitClient?
    ensures Enabled(t, Next(t)) && !Next(t).Connect? && MovesOn(t, Apply(t, Next(t)))
  {
  }

  lemma ModifyMovesOn(t: State)
    requires Inv(t) && (t.server.pc.ToReceiveS? || t.server.pc.ToSendS?)
    ensures Enabled(t, Next(t)) && !Next(t).Connect? && MovesOn(t, Apply(t, Next(t)))
  {
  }

  lemma TeardownMovesOn(t: State)
    requires Inv(t) && (t.server.pc.AcceptAgain? || t.server.pc.AwaitTeardown? || t.server.pc.Shutdown?)
    ensures Enabled(t, Next(t)) && !Next(t).Connect? && MovesOn(t, Apply(t, Next(t)))
  {
    if Next(t).ServerReadTeardown? {
      ReadTeardownKeepsInv(t, []);
    }
  }

  lemma DoneMovesOn(t: State)
    requires Inv(t) && t.server.pc.Accept? && !t.client.pc.Out?
    ensures Enabled(t, Next(t)) && !Next(t).Connect? && MovesOn(t, Apply(t, Next(t)))
  {
    FlatOne(DONE);
  }

  lemma IdleIff(t: State)
    requires Inv(t)
    ensures Idle(t) <==> t.client.pc.Out? && t.server.pc.Accept?
  {
  }

  /** Outside the idle state the next step of the schedule is possible and moves the session on. */
  lemma Advance(t: State)
    requires Inv(t) && !Idle(t)
    ensures Enabled(t, Next(t)) && !Next(t).Connect? && MovesOn(t, Apply(t, Next(t)))
  {
    IdleIff(t);
    match t.server.pc {
      case Accept => DoneMovesOn(t);
      case ReadSize => SetupMovesOn(t);
      case Setup(_) => SetupMovesOn(t);
      case SendRecord => SetupMovesOn(t);
      case AwaitClient => ExchangeMovesOn(t);
      case ToReceiveS => ModifyMovesOn(t);
      case ToSendS => ModifyMovesOn(t);
      case AcceptAgain => TeardownMovesOn(t);
      case AwaitTeardown => TeardownMovesOn(t);
      case Shutdown(_) => TeardownMovesOn(t);
    }
  }

  predicate NoConnect(steps: seq<Step>, n: nat) {
    forall j :: n <= j < |steps| ==> !steps[j].Connect?
  }

  lemma {:induction false} RunToIdle(s: State, steps: seq<Step>, t: State) returns (all: seq<Step>)
    requires Initial(s) && Run(s, steps) == Some(t)
    ensures steps <= all && NoConnect(all, |steps|) && Run(s, all).Some? && Idle(Run(s, all).value)
    decreases Ahead(t)
  {
    if Idle(t) {
      all := steps;
    } else {
      RunKeepsInv(s, steps);
      Advance(t);
      var longer, u := Then(s, steps, t, Next(t));
      all := RunToIdle(s, longer, u);
    }
  }

  /** Every session can be torn down: every run can be continued without another connection to a state
      in which the client is out, the server waits at its first accept, none of its objects is left
      and nothing is unread. */
  lemma {:induction false} CanAlwaysTearDown(s: State, steps: seq<Step>) returns (all: seq<Step>)
    requires Initial(s) && Run(s, steps).Some?
    ensures steps <= all && NoConnect(all, |steps|) && Run(s, all).Some? && Idle(Run(s, all).value)
  {
    all := RunToIdle(s, steps, Run(s, steps).value);
  }

  lemma {:induction false} RunToService(s: State, steps: seq<Step>, t: State) returns (all: seq<Step>, u: State)
    requires Initial(s) && Run(s, steps) == Some(t) && ClientAhead(t.client.pc) >= 4
    ensures steps <= all && NoConnect(all, |steps|) && Run(s, all) == Some(u) && InService(u)
    ensures u.client.own == t.client.own && u.client.size == t.client.size
    decreases Ahead(t)
  {
    if InService(t) {
      all, u := steps, t;
    } else {
      RunKeepsInv(s, steps);
      Advance(t);
      var longer, v := Then(s, steps, t, Next(t));
      all, u := RunToService(s, longer, v);
    }
  }

  /** After a teardown any client can connect again, with any size, and be served: both queue pairs get
      ready to send and the client can post. */
  lemma {:induction false} AnotherSession(s: State, steps: seq<Step>, own: Bootstrap, size: nat) returns (all: seq<Step>)
    requires Initial(s) && Run(s, steps).Some? && Idle(Run(s, steps).value)
    requires Fits(own) && own.vaddr == 0 && 0 < size < U64
    ensures steps + [Connect(own, size)] <= all && NoConnect(all, |steps| + 1) && Run(s, all).Some?
    ensures var u := Run(s, all).value;
            && InService(u) && Enabled(u, PostWr) && u.client.own == own && u.client.size == size == u.server.memSize
            && u.client.qp.state.ReadyToSend? && u.server.qp.state.ReadyToSend?
  {
    var t := Run(s, steps).value;
    var longer, v := Then(s, steps, t, Connect(own, size));
    var u;
    all, u := RunToService(s, longer, v);
    RunKeepsInv(s, all);
  }

  function Connects(steps: seq<Step>): nat {
    if steps == [] then 0 else Connects(steps[..|steps| - 1]) + (if steps[|steps| - 1].Connect? then 1 else 0)
  }

  lemma {:induction false} NoMoreConnects(steps: seq<Step>, all: seq<Step>)
    requires steps <= all && NoConnect(all, |steps|)
    ensures Connects(all) == Connects(steps)
  {
    if |steps| == |all| {
      assert steps == all;
    } else {
      NoMoreConnects(steps, all[..|all| - 1]);
    }
  }

  /** Any number of sessions: for every n there is a run of n sessions, each served and torn down. */
  lemma {:induction false} AnyNumberOfSessions(s: State, n: nat) returns (steps: seq<Step>)
    requires Initial(s)
    ensures Run(s, steps).Some? && Idle(Run(s, steps).value) && Connects(steps) == n
  {
    if n == 0 {
      steps := [];
    } else {
      var before := AnyNumberOfSessions(s, n - 1);
      var served := AnotherSession(s, before, NO_RECORD, 4096);
      var connect := before + [Connect(NO_RECORD, 4096)];
      assert connect[..|connect| - 1] == before;
      NoMoreConnects(connect, served);
      steps := CanAlwaysTearDown(s, served);
      NoMoreConnects(served, steps);
    }
  }
}
