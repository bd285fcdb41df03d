/**
 The life of the connection: handshake, queue-pair transitions (section 10.3.1 of the InfiniBand
 Architecture Specification, Volume 1), service and teardown, over any number of sessions of the
 server's loop.

 The TCP stream has no message boundaries: a read returns everything unread, however many sends it
 took, followed in the buffer by bytes that are not part of it (`tail`).
 */
module Session {
  import opened Transfers
  import opened BootstrapText

  datatype QpState = Reset | Init | ReadyToReceive | ReadyToSend

  /** The attributes modify_qp and setup_rdma_2 set on the way. */
  datatype QueuePair = QueuePair(state: QpState, destQpn: nat, dlid: nat, rqPsn: nat, sqPsn: nat)

  const FRESH_QP: QueuePair := QueuePair(Reset, 0, 0, 0, 0)

  /** The server's verbs objects, in the order setup_rdma_1 creates them. */
  datatype Object = DeviceContext | ProtectionDomain | MemoryRegion | CompletionChannel | SendCq | RecvCq | Qp

  function Script(): seq<Object> {
    [DeviceContext, ProtectionDomain, MemoryRegion, CompletionChannel, SendCq, RecvCq, Qp]
  }

  function Rank(o: Object): nat {
    match o
    case DeviceContext => 0
    case ProtectionDomain => 1
    case MemoryRegion => 2
    case CompletionChannel => 3
    case SendCq => 4
    case RecvCq => 5
    case Qp => 6
  }

  /** The first k objects of the script. */
  function Built(k: nat): set<Object> {
    set o: Object | Rank(o) < k
  }

  /** What each object is built on. */
  function DependsOn(o: Object): set<Object> {
    match o
    case DeviceContext => {}
    case ProtectionDomain => {DeviceContext}
    case MemoryRegion => {ProtectionDomain}
    case CompletionChannel => {DeviceContext}
    case SendCq => {DeviceContext, CompletionChannel}
    case RecvCq => {DeviceContext, CompletionChannel}
    case Qp => {ProtectionDomain, SendCq, RecvCq}
  }

  /** The order of shutdown_rdma_1. */
  function ShutdownScript(): seq<Object> {
    [Qp, RecvCq, SendCq, CompletionChannel, MemoryRegion, ProtectionDomain, DeviceContext]
  }

  datatype ClientPc =
    | Out | Connected | AwaitRecord | GotRecord
    | ToInit | ToReceive | ToSend
    | Running | Cleaned | Reconnected | AwaitDone

  datatype ServerPc =
    | Accept | ReadSize | Setup(k: nat) | SendRecord | AwaitClient
    | ToReceiveS | ToSendS | AcceptAgain | AwaitTeardown | Shutdown(k: nat)

  datatype Client = Client(pc: ClientPc, own: Bootstrap, rem: Option<Bootstrap>, qp: QueuePair, size: nat)

  datatype Server = Server(pc: ServerPc, own: Bootstrap, rem: Option<Bootstrap>, qp: QueuePair, memSize: nat, live: set<Object>)

  datatype State = State(client: Client, server: Server, c2s: seq<seq<char>>, s2c: seq<seq<char>>, posts: nat)

  datatype Step =
    | Connect(own: Bootstrap, size: nat)
    | ClientSendSize
    | ServerReadSize(tail: seq<char>)
    | ServerCreate
    | ServerSendRecord(own: Bootstrap)
    | ClientReadRecord(tail: seq<char>)
    | ClientSendRecord
    | ClientModify
    | ServerReadRecord(tail: seq<char>)
    | ServerModify
    | PostWr
    | CleanQueue
    | Reconnect
    | ClientSendTeardown
    | ServerReadTeardown(tail: seq<char>)
    | ServerDestroy
    | ClientReadDone(tail: seq<char>)

  function Flat(ms: seq<seq<char>>): seq<char> {
    if ms == [] then [] else ms[0] + Flat(ms[1..])
  }

  predicate StartsWith(s: seq<char>, word: seq<char>) {
    word <= s
  }

  const TEARDOWN: seq<char> := "teardown"
  const DONE: seq<char> := "done"
  const NO_RECORD: Bootstrap := Bootstrap(0, 0, 0, 0, 0)
  const FRESH_SERVER: Server := Server(Accept, NO_RECORD, None, FRESH_QP, 0, {})

  predicate Initial(s: State) {
    s.client.pc.Out? && s.server == FRESH_SERVER && s.c2s == [] && s.s2c == []
  }

  predicate Enabled(s: State, st: Step) {
    match st
    case Connect(own, size) => s.client.pc.Out? && s.server.pc.Accept? && Fits(own) && own.vaddr == 0 && 0 < size < U64
    case ClientSendSize => s.client.pc.Connected?
    case ServerReadSize(tail) => s.server.pc.ReadSize? && s.c2s != [] && Ends(tail)
    case ServerCreate => s.server.pc.Setup? && s.server.pc.k < |Script()|
    case ServerSendRecord(own) => s.server.pc.SendRecord? && Fits(own)
    case ClientReadRecord(tail) => s.client.pc.AwaitRecord? && s.s2c != [] && Ends(tail)
    case ClientSendRecord => s.client.pc.GotRecord?
    case ClientModify => (s.client.pc.ToInit? || s.client.pc.ToReceive? || s.client.pc.ToSend?) && s.client.rem.Some?
    case ServerReadRecord(tail) => s.server.pc.AwaitClient? && s.c2s != [] && Ends(tail)
    case ServerModify => (s.server.pc.ToReceiveS? || s.server.pc.ToSendS?) && s.server.rem.Some?
    case PostWr => s.client.pc.Running?
    case CleanQueue => s.client.pc.Running?
    case Reconnect => s.client.pc.Cleaned? && s.server.pc.AcceptAgain?
    case ClientSendTeardown => s.client.pc.Reconnected?
    case ServerReadTeardown(tail) => s.server.pc.AwaitTeardown? && s.c2s != []
    case ServerDestroy => s.server.pc.Shutdown? && s.server.pc.k < |ShutdownScript()|
    case ClientReadDone(tail) => s.client.pc.AwaitDone? && s.s2c != []
  }

  /** The three calls to ib_modify_qp, in turn. */
  function Modified(qp: QueuePair, own: Bootstrap, rem: Bootstrap): QueuePair {
    match qp.state
    case Reset => qp.(state := Init)
    case Init => qp.(state := ReadyToReceive, destQpn := rem.qpn, dlid := rem.lid, rqPsn := rem.psn)
    case _ => qp.(state := ReadyToSend, sqPsn := own.psn)
  }

  function Apply(s: State, st: Step): State
    requires Enabled(s, st)
  {
    match st
    case Connect(own, size) =>
      s.(client := Client(Connected, own, None, FRESH_QP, size), server := s.server.(pc := ReadSize), c2s := [], s2c := [])
    case ClientSendSize =>
      s.(client := s.client.(pc := AwaitRecord), c2s := s.c2s + [Print(10, s.client.size)])
    case ServerReadSize(tail) =>
      var text := Flat(s.c2s) + tail;
      s.(c2s := [],
         server := match Number(10, |text|, text)
                   case Some((n, _)) => s.server.(memSize := n % U64, pc := Setup(0))
                   case None => s.server.(pc := Setup(0)))
    case ServerCreate =>
      var k := s.server.pc.k;
      var live := s.server.live + {Script()[k]};
      s.(server := if k + 1 < |Script()| then s.server.(live := live, pc := Setup(k + 1))
                   else s.server.(live := live, pc := SendRecord, qp := s.server.qp.(state := Init)))
    case ServerSendRecord(own) =>
      s.(server := s.server.(pc := AwaitClient, own := own), s2c := s.s2c + [PrintBootstrap(own)])
    case ClientReadRecord(tail) =>
      s.(s2c := [], client := s.client.(pc := GotRecord, rem := ScanBootstrap(Flat(s.s2c) + tail)))
    case ClientSendRecord =>
      s.(client := s.client.(pc := ToInit), c2s := s.c2s + [PrintBootstrap(s.client.own)])
    case ClientModify =>
      var pc := if s.client.pc.ToInit? then ToReceive else if s.client.pc.ToReceive? then ToSend else Running;
      s.(client := s.client.(pc := pc, qp := Modified(s.client.qp, s.client.own, s.client.rem.value)))
    case ServerReadRecord(tail) =>
      s.(c2s := [], server := s.server.(pc := ToReceiveS, rem := ScanBootstrap(Flat(s.c2s) + tail)))
    case ServerModify =>
      var pc := if s.server.pc.ToReceiveS? then ToSendS else AcceptAgain;
      s.(server := s.server.(pc := pc, qp := Modified(s.server.qp, s.server.own, s.server.rem.value)))
    case PostWr => s.(posts := s.posts + 1)
    case CleanQueue => s.(client := s.client.(pc := Cleaned))
    case Reconnect => s.(client := s.client.(pc := Reconnected), server := s.server.(pc := AwaitTeardown))
    case ClientSendTeardown => s.(client := s.client.(pc := AwaitDone), c2s := s.c2s + [TEARDOWN])
    case ServerReadTeardown(tail) =>
      if StartsWith(Flat(s.c2s) + tail, TEARDOWN)
      then s.(c2s := [], s2c := s.s2c + [DONE], server := s.server.(pc := Shutdown(0)))
      else s.(c2s := [])
    case ServerDestroy =>
      var k := s.server.pc.k;
      var live := s.server.live - {ShutdownScript()[k]};
      s.(server := if k + 1 < |ShutdownScript()| then s.server.(live := live, pc := Shutdown(k + 1))
                   else FRESH_SERVER.(live := live))
    case ClientReadDone(tail) =>
      var text := Flat(s.s2c) + tail;
      if StartsWith(text, DONE) then s.(s2c := [], client := s.client.(pc := Out))
      else s.(s2c := [], c2s := s.c2s + [text])
  }

  // ---------------------------------------------------------------- the invariant

  predicate AfterRecord(c: ClientPc) {
    c.ToInit? || c.ToReceive? || c.ToSend? || c.Running? || c.Cleaned?
  }

  predicate AfterClient(v: ServerPc) {
    v.ToReceiveS? || v.ToSendS? || v.AcceptAgain?
  }

  /** Which positions of the two programs go together. */
  predicate Together(c: ClientPc, v: ServerPc) {
    match c
    case Out => v.Accept? || v.Shutdown?
    case Connected => v.ReadSize?
    case AwaitRecord => v.ReadSize? || v.Setup? || v.SendRecord? || v.AwaitClient?
    case GotRecord => v.AwaitClient?
    case Reconnected => v.AwaitTeardown?
    case AwaitDone => v.AwaitTeardown? || v.Shutdown? || v.Accept?
    case _ => v.AwaitClient? || AfterClient(v)
  }

  /** The unread text in each direction: never more than one message. */
  function ToServer(s: State): seq<seq<char>> {
    if s.client.pc.AwaitRecord? && s.server.pc.ReadSize? then [Print(10, s.client.size)]
    else if AfterRecord(s.client.pc) && s.server.pc.AwaitClient? then [PrintBootstrap(s.client.own)]
    else if s.client.pc.AwaitDone? && s.server.pc.AwaitTeardown? then [TEARDOWN]
    else []
  }

  function ToClient(s: State): seq<seq<char>> {
    if s.client.pc.AwaitRecord? && s.server.pc.AwaitClient? then [PrintBootstrap(s.server.own)]
    else if s.client.pc.AwaitDone? && !s.server.pc.AwaitTeardown? then [DONE]
    else []
  }

  /** The client is through with the session, or about to be, and the server has not forgotten it yet. */
  predicate Leaving(s: State) {
    (s.client.pc.AwaitDone? || s.client.pc.Out?) && !s.server.pc.Accept?
  }

  /** What each side knows of the other. */
  predicate Knows(s: State) {
    && (!s.client.pc.Out? ==> Fits(s.client.own) && 0 < s.client.size < U64)
    && (s.server.pc.AwaitClient? || AfterClient(s.server.pc) || s.server.pc.AwaitTeardown? || s.server.pc.Shutdown? ==>
          Fits(s.server.own) && s.server.memSize == s.client.size)
    && (s.server.pc.Setup? || s.server.pc.SendRecord? ==> s.server.memSize == s.client.size)
    && (s.client.pc.GotRecord? || AfterRecord(s.client.pc) || s.client.pc.Reconnected? || Leaving(s) ==>
          s.client.rem == Some(s.server.own))
    && (AfterClient(s.server.pc) || s.server.pc.AwaitTeardown? || s.server.pc.Shutdown? ==>
          s.server.rem == Some(s.client.own))
  }

  function Connecting(state: QpState, own: Bootstrap, rem: Bootstrap): QueuePair {
    match state
    case Reset => FRESH_QP
    case Init => FRESH_QP.(state := Init)
    case ReadyToReceive => QueuePair(ReadyToReceive, rem.qpn, rem.lid, rem.psn, 0)
    case ReadyToSend => QueuePair(ReadyToSend, rem.qpn, rem.lid, rem.psn, own.psn)
  }

  function ClientQpState(c: ClientPc): QpState {
    match c
    case ToReceive => Init
    case ToSend => ReadyToReceive
    case Running => ReadyToSend
    case Cleaned => ReadyToSend
    case Reconnected => ReadyToSend
    case AwaitDone => ReadyToSend
    case Out => ReadyToSend
    case _ => Reset
  }

  function ServerQpState(v: ServerPc): QpState {
    match v
    case SendRecord => Init
    case AwaitClient => Init
    case ToReceiveS => Init
    case ToSendS => ReadyToReceive
    case AcceptAgain => ReadyToSend
    case AwaitTeardown => ReadyToSend
    case Shutdown(_) => ReadyToSend
    case _ => Reset
  }

  predicate QueuePairsOk(s: State) {
    && (!s.server.pc.Accept? ==>
          s.client.qp == Connecting(ClientQpState(s.client.pc), s.client.own, s.server.own))
    && s.server.qp == Connecting(ServerQpState(s.server.pc), s.server.own, s.client.own)
  }

  /** The objects alive at each position of the server's program. */
  predicate ObjectsOk(v: Server) {
    match v.pc
    case Accept => v.live == {}
    case ReadSize => v.live == {}
    case Setup(k) => k < 7 && v.live == Built(k)
    case Shutdown(k) => k < 7 && v.live == Built(7 - k)
    case _ => v.live == Built(7)
  }

  predicate Inv(s: State) {
    && Together(s.client.pc, s.server.pc)
    && s.c2s == ToServer(s) && s.s2c == ToClient(s)
    && Knows(s) && QueuePairsOk(s) && ObjectsOk(s.server)
  }

  lemma FlatOne(m: seq<char>)
    ensures Flat([m]) == m
  {
    assert [m][1..] == [];
    assert m + [] == m;
  }

  lemma CreateOne(k: nat)
    requires k < 7
    ensures |Script()| == 7 && Rank(Script()[k]) == k
    ensures Built(0) == {} && Built(k) + {Script()[k]} == Built(k + 1)
  {
  }

  lemma DestroyOne(k: nat)
    requires k < 7
    ensures |ShutdownScript()| == 7 && Rank(ShutdownScript()[k]) == 6 - k
    ensures Built(0) == {} && Built(7 - k) - {ShutdownScript()[k]} == Built(7 - k - 1)
  {
  }

  // ---------------------------------------------------------------- every step keeps it

  lemma ReadSizeKeepsInv(s: State, tail: seq<char>)
    requires Inv(s) && Enabled(s, ServerReadSize(tail))
    ensures Inv(Apply(s, ServerReadSize(tail)))
  {
    FlatOne(Print(10, s.client.size));
    SizeRoundTrip(s.client.size, tail);
  }

  lemma ReadRecordKeepsInv(s: State, tail: seq<char>)
    requires Inv(s) && Enabled(s, ClientReadRecord(tail))
    ensures Inv(Apply(s, ClientReadRecord(tail)))
  {
    FlatOne(PrintBootstrap(s.server.own));
    BootstrapRoundTrip(s.server.own, tail);
  }

  lemma ReadClientKeepsInv(s: State, tail: seq<char>)
    requires Inv(s) && Enabled(s, ServerReadRecord(tail))
    ensures Inv(Apply(s, ServerReadRecord(tail)))
  {
    FlatOne(PrintBootstrap(s.client.own));
    BootstrapRoundTrip(s.client.own, tail);
  }

  lemma CreateKeepsInv(s: State)
    requires Inv(s) && Enabled(s, ServerCreate)
    ensures Inv(Apply(s, ServerCreate))
  {
    CreateOne(s.server.pc.k);
  }

  lemma DestroyKeepsInv(s: State)
    requires Inv(s) && Enabled(s, ServerDestroy)
    ensures Inv(Apply(s, ServerDestroy))
  {
    DestroyOne(s.server.pc.k);
  }

  lemma ReadTeardownKeepsInv(s: State, tail: seq<char>)
    requires Inv(s) && Enabled(s, ServerReadTeardown(tail))
    ensures Inv(Apply(s, ServerReadTeardown(tail)))
    ensures Apply(s, ServerReadTeardown(tail)).server.pc == Shutdown(0)
  {
    FlatOne(TEARDOWN);
  }

  lemma ReadDoneKeepsInv(s: State, tail: seq<char>)
    requires Inv(s) && Enabled(s, ClientReadDone(tail))
    ensures Inv(Apply(s, ClientReadDone(tail)))
  {
    FlatOne(DONE);
  }

  lemma StepKeepsInv(s: State, st: Step)
    requires Inv(s) && Enabled(s, st)
    ensures Inv(Apply(s, st))
  {
    match st {
      case ServerReadSize(tail) => ReadSizeKeepsInv(s, tail);
      case ClientReadRecord(tail) => ReadRecordKeepsInv(s, tail);
      case ServerReadRecord(tail) => ReadClientKeepsInv(s, tail);
      case ServerCreate => CreateKeepsInv(s);
      case ServerDestroy => DestroyKeepsInv(s);
      case ServerReadTeardown(tail) => ReadTeardownKeepsInv(s, tail);
      case ClientReadDone(tail) => ReadDoneKeepsInv(s, tail);
      case ClientModify => ModifyKeepsInv(s, st);
      case ServerModify => ModifyKeepsInv(s, st);
      case ServerSendRecord(_) => SendKeepsInv(s, st);
      case ClientSendRecord => SendKeepsInv(s, st);
      case ClientSendTeardown => SendKeepsInv(s, st);
      case _ => QuietKeepsInv(s, st);
    }
  }

  lemma ModifyKeepsInv(s: State, st: Step)
    requires Inv(s) && Enabled(s, st) && (st.ClientModify? || st.ServerModify?)
    ensures Inv(Apply(s, st))
  {
  }

  lemma QuietKeepsInv(s: State, st: Step)
    requires Inv(s) && Enabled(s, st)
    requires st.Connect? || st.ClientSendSize? || st.PostWr? || st.CleanQueue? || st.Reconnect?
    ensures Inv(Apply(s, st))
  {
  }

  lemma SendKeepsInv(s: State, st: Step)
    requires Inv(s) && Enabled(s, st)
    requires st.ServerSendRecord? || st.ClientSendRecord? || st.ClientSendTeardown?
    ensures Inv(Apply(s, st))
  {
  }

  function Run(s: State, steps: seq<Step>): Option<State> {
    if steps == [] then Some(s) else
    match Run(s, steps[..|steps| - 1])
    case None => None
    case Some(t) => if Enabled(t, steps[|steps| - 1]) then Some(Apply(t, steps[|steps| - 1])) else None
  }

  lemma {:induction false} RunKeepsInv(s: State, steps: seq<Step>)
    requires Initial(s) && Run(s, steps).Some?
    ensures Inv(Run(s, steps).value)
  {
    if steps != [] {
      RunKeepsInv(s, steps[..|steps| - 1]);
      StepKeepsInv(Run(s, steps[..|steps| - 1]).value, steps[|steps| - 1]);
    }
  }

  // ---------------------------------------------------------------- what follows for every run

  /** Each side's queue pair is addressed at the other's. */
  predicate Matched(a: QueuePair, mine: Bootstrap, b: QueuePair, yours: Bootstrap) {
    a.destQpn == yours.qpn && a.dlid == yours.lid && a.rqPsn == yours.psn == b.sqPsn
  }

  /** Handshake agreement: once both queue pairs are ready to send, each is connected to the other,
      each expects the sequence number the other sends, and the client holds the server's address,
      key and the size it asked for. */
  lemma {:induction false} HandshakeAgreement(s: State, steps: seq<Step>)
    requires Initial(s) && Run(s, steps).Some?
    requires var t := Run(s, steps).value;
             t.client.qp.state.ReadyToSend? && t.server.qp.state.ReadyToSend?
    ensures var t := Run(s, steps).value;
            && Matched(t.client.qp, t.client.own, t.server.qp, t.server.own)
            && Matched(t.server.qp, t.server.own, t.client.qp, t.client.own)
            && t.client.rem == Some(t.server.own) && t.server.rem == Some(t.client.own)
            && t.server.memSize == t.client.size
  {
    RunKeepsInv(s, steps);
  }

  /** No direction ever holds two unread messages, so an unframed read sees exactly one. */
  lemma {:induction false} OneMessageAtATime(s: State, steps: seq<Step>)
    requires Initial(s) && Run(s, steps).Some?
    ensures var t := Run(s, steps).value;
            && |t.c2s| <= 1 && |t.s2c| <= 1
            && (t.c2s != [] ==> Flat(t.c2s) == t.c2s[0]) && (t.s2c != [] ==> Flat(t.s2c) == t.s2c[0])
  {
    RunKeepsInv(s, steps);
    var t := Run(s, steps).value;
    if t.c2s != [] {
      FlatOne(t.c2s[0]);
    }
    if t.s2c != [] {
      FlatOne(t.s2c[0]);
    }
  }

  /** While the client can post, the server's region, queue pair and everything below them are alive
      and the server is not about to destroy any of them. */
  lemma {:induction false} PostsOnlyIntoLiveRegion(s: State, steps: seq<Step>)
    requires Initial(s) && Run(s, steps).Some? && Enabled(Run(s, steps).value, PostWr)
    ensures var t := Run(s, steps).value;
            && (forall o: Object :: o in t.server.live)
            && !Enabled(t, ServerDestroy) && t.client.rem == Some(t.server.own)
  {
    RunKeepsInv(s, steps);
  }

  /** Once a shutdown has begun, nothing is posted until a later session has been set up. */
  lemma {:induction false} NoPostDuringShutdown(s: State, steps: seq<Step>)
    requires Initial(s) && Run(s, steps).Some? && Run(s, steps).value.server.pc.Shutdown?
    ensures !Enabled(Run(s, steps).value, PostWr) && !Enabled(Run(s, steps).value, CleanQueue)
  {
    RunKeepsInv(s, steps);
  }

  /** Objects are created on live ones and destroyed only when nothing live is built on them; between
      sessions nothing is left. */
  lemma {:induction false} ObjectLifetimes(s: State, steps: seq<Step>)
    requires Initial(s) && Run(s, steps).Some?
    ensures var t := Run(s, steps).value;
            && (Enabled(t, ServerCreate) ==> CreationIsLegal(t.server.live, Script()[t.server.pc.k]))
            && (Enabled(t, ServerDestroy) ==> DestructionIsLegal(t.server.live, ShutdownScript()[t.server.pc.k]))
            && (t.server.pc.Accept? ==> t.server.live == {})
  {
    RunKeepsInv(s, steps);
    var v := Run(s, steps).value.server;
    if v.pc.Setup? {
      CreateOne(v.pc.k);
      ScriptIsLegal(v.pc.k);
    } else if v.pc.Shutdown? {
      DestroyOne(v.pc.k);
      ScriptIsLegal(6 - v.pc.k);
    }
  }

  ghost predicate CreationIsLegal(live: set<Object>, o: Object) {
    o !in live && DependsOn(o) <= live
  }

  ghost predicate DestructionIsLegal(live: set<Object>, o: Object) {
    o in live && forall p :: p in live ==> o !in DependsOn(p)
  }

  lemma ScriptIsLegal(k: nat)
    requires k < 7
    ensures forall o: Object :: Rank(o) == k ==> CreationIsLegal(Built(k), o) && DestructionIsLegal(Built(k + 1), o)
  {
    assert forall o: Object, p: Object :: p in DependsOn(o) ==> Rank(p) < Rank(o);
  }

  // ---------------------------------------------------------------- posting before the server is ready

  /** A post finds a receiver exactly when the server has read the client's record and made its first
      transition after that; in particular not while the record is unread. */
  lemma {:induction false} PostFindsReceiverIff(s: State, steps: seq<Step>)
    requires Initial(s) && Run(s, steps).Some? && Enabled(Run(s, steps).value, PostWr)
    ensures var t := Run(s, steps).value;
            && (!t.server.qp.state.Init? <==> t.server.pc.ToSendS? || t.server.pc.AcceptAgain?)
            && (t.server.pc.ToSendS? ==> t.server.qp.state.ReadyToReceive?)
            && (t.server.pc.AcceptAgain? ==> t.server.qp.state.ReadyToSend?)
            && (t.c2s != [] ==> t.server.qp.state.Init?)
  {
    RunKeepsInv(s, steps);
  }

  lemma Then(s: State, steps: seq<Step>, t: State, st: Step) returns (steps': seq<Step>, t': State)
    requires Initial(s) && Run(s, steps) == Some(t) && Enabled(t, st)
    ensures t' == Apply(t, st) && steps' == steps + [st] && Run(s, steps') == Some(t') && Inv(t')
  {
    steps', t' := steps + [st], Apply(t, st);
    assert steps'[..|steps'| - 1] == steps;
    RunKeepsInv(s, steps');
  }

  /** The client cannot learn which of the two it is: whenever it posts too early, the run can go on
      to a state with a receiver by the server's steps alone, and everything the client holds or could
      read is as it was. */
  lemma {:induction false} ClientCannotTell(s: State, steps: seq<Step>) returns (later: seq<Step>)
    requires Initial(s) && Run(s, steps).Some? && Enabled(Run(s, steps).value, PostWr)
    requires Run(s, steps).value.server.qp.state.Init?
    ensures steps <= later && Run(s, later).Some?
    ensures var t, u := Run(s, steps).value, Run(s, later).value;
            u.client == t.client && u.s2c == t.s2c && Enabled(u, PostWr) && !u.server.qp.state.Init?
  {
    RunKeepsInv(s, steps);
    var t := Run(s, steps).value;
    later := steps;
    if t.server.pc.AwaitClient? {
      later, t := Then(s, later, t, ServerReadRecord([]));
    }
    later, t := Then(s, later, t, ServerModify);
  }

  lemma UpToRecord(s: State) returns (steps: seq<Step>, t: State)
    requires Initial(s)
    ensures Run(s, steps) == Some(t) && Inv(t) && t.client.pc.AwaitRecord? && t.server.pc.AwaitClient?
  {
    steps, t := [], s;
    steps, t := Then(s, steps, t, Connect(NO_RECORD, 4096));
    steps, t := Then(s, steps, t, ClientSendSize);
    steps, t := Then(s, steps, t, ServerReadSize([]));
    while t.server.pc.Setup?
      invariant Run(s, steps) == Some(t) && Inv(t) && t.client.pc.AwaitRecord?
      invariant t.server.pc.Setup? || t.server.pc.SendRecord?
      decreases if t.server.pc.Setup? then 8 - t.server.pc.k else 0
    {
      steps, t := Then(s, steps, t, ServerCreate);
    }
    steps, t := Then(s, steps, t, ServerSendRecord(NO_RECORD));
  }

  lemma UpToModify(s: State) returns (steps: seq<Step>, t: State)
    requires Initial(s)
    ensures Run(s, steps) == Some(t) && Inv(t) && t.client.pc.ToInit? && t.server.pc.AwaitClient?
  {
    steps, t := UpToRecord(s);
    steps, t := Then(s, steps, t, ClientReadRecord([]));
    steps, t := Then(s, steps, t, ClientSendRecord);
  }

  /** The client does not wait for the server's last transitions: it can post while the server's
      queue pair is still in the Init state and relies on the adapter's retries. */
  lemma EarlyPostIsPossible(s: State)
    requires Initial(s)
    ensures exists steps :: Run(s, steps).Some? && Enabled(Run(s, steps).value, PostWr) &&
                            Run(s, steps).value.server.qp.state.Init?
  {
    var steps, t := UpToModify(s);
    steps, t := Then(s, steps, t, ClientModify);
    steps, t := Then(s, steps, t, ClientModify);
    steps, t := Then(s, steps, t, ClientModify);
  }
}
