/** The same two endpoints with bytes in the channels: every frame is built by the sender's code and decoded
    by the receiver's, C++ or Java. Each run of this system is the run of the multiplexer with the same steps, as
    long as ids have at most nine digits and messages fit the receive buffer; so what is proved there can be
    said of the bytes, as WirePipes does for the payloads that programs give to send and get from recv. */
module Wire {
  import opened Bytes
  import opened Codec
  import opened Endpoints
  import opened Multiplexer
  import opened Guarantees

  datatype Node = Node(e: Endpoint, ever: map<int, nat>, inbox: seq<Bytes>)

  datatype Net = Net(lang: Lang, c: Node, a: Node,
                     want: nat, sent: nat, taken: Option<int>, woken: nat, replied: Option<int>)

  function NetInit(lang: Lang): Net {
    Net(lang, Node(INIT, map[], []), Node(INIT, map[], []), 0, 0, None, 0, None)
  }

  /** What varies from run to run: what the 1024-byte buffer of a control frame held before, and what the
      C++ receive buffer holds behind a message. */
  datatype Memory = Memory(stack: Bytes, junk: Bytes)

  // ---- building and reading, by language ----

  predicate Sendable(from: Lang, f: Frame) {
    match f
    case Create => true
    case Accepted(id) => 0 <= id < NINE_DIGITS && from == Cpp
    case Close(id) => 0 <= id < NINE_DIGITS
    case Sock(id, p) =>
      0 <= id < NINE_DIGITS && |SockFrame(id, p)| <= MAX_CHUNK && (from == Cpp ==> p != [])
  }

  function Build(from: Lang, f: Frame, stack: Bytes): Bytes
    requires Sendable(from, f) && |stack| == HEADER_SIZE
  {
    match f
    case Create => if from == Cpp then CppCreate(stack) else JavaCreate()
    case Accepted(id) => CppAccepted(id, stack)
    case Close(id) => if from == Cpp then CppClose(id, stack) else JavaClose(id)
    case Sock(id, p) => SockFrame(id, p)
  }

  function Read(by_: Lang, m: Bytes, junk: Bytes): Decoded
    requires |m| <= MAX_CHUNK
  {
    if by_ == Cpp then DecodeCpp(m + junk, |m|) else DecodeJava(m + Zeros(MAX_CHUNK - |m|), |m|)
  }

  ghost predicate Carries(reader: Lang, m: Bytes, f: Frame) {
    |m| <= MAX_CHUNK && forall junk :: Read(reader, m, junk) == Good(f)
  }

  /** Everything the connecting side sends is read by the C++ acceptor as what was meant; everything the C++
      acceptor sends is read so by a connector of either language. */
  lemma BuiltIsRead(from: Lang, reader: Lang, f: Frame, stack: Bytes)
    requires Sendable(from, f) && |stack| == HEADER_SIZE
    requires reader == Java ==> from == Cpp && !f.Create?
    ensures Carries(reader, Build(from, f, stack), f)
  {
    var m := Build(from, f, stack);
    forall junk ensures Read(reader, m, junk) == Good(f) {
      match f {
        case Create => if from == Cpp { CppCreateRoundTrip(stack, junk); } else { CppReadsJava(0, junk); }
        case Accepted(id) => JavaAgreesOnControl(ACCEPTED, id, stack, junk, MAX_CHUNK - |m|);
        case Close(id) =>
          if from == Cpp { JavaAgreesOnControl(CLOSE, id, stack, junk, MAX_CHUNK - |m|); }
          else { CppReadsJava(id, junk); }
        case Sock(id, p) => JavaAgreesOnSock(id, p, junk, MAX_CHUNK - |m|);
      }
    }
  }

  // ---- steps ----

  function LangOf(n: Net, who: Role): Lang { if who == Connector then n.lang else Cpp }

  function NodeOf(n: Net, who: Role): Node { if who == Connector then n.c else n.a }

  ghost predicate NodeOk(d: Node) {
    && Consistent(d.e)
    && (forall i :: i in d.ever ==> d.ever[i] < |d.e.sems| && d.e.sems[d.ever[i]].owner == i)
    && (forall i :: i in d.e.semMap ==> i in d.ever && d.ever[i] == d.e.semMap[i])
    && (forall i :: i in d.ever ==> 0 <= i < NINE_DIGITS)
  }

  ghost predicate NetOk(n: Net) {
    && NodeOk(n.c) && NodeOk(n.a)
    && (n.taken.Some? ==> 0 <= n.taken.value < NINE_DIGITS)
    && (n.replied.Some? ==> 0 <= n.replied.value < NINE_DIGITS)
    && n.c.e.connectSem == |n.c.e.connectQueue|
    && 0 <= n.a.e.counter
  }

  /** Messages fit the receive buffer, and accept has nine-digit ids left. */
  predicate Fits(n: Net, s: Step) {
    match s
    case AcceptReply => NextId(n.a.e) < NINE_DIGITS
    case Send(who, id, p) => Sendable(LangOf(n, who), Sock(id, p))
    case _ => true
  }

  ghost predicate NetEnabled(n: Net, s: Step, mem: Memory) {
    && |mem.stack| == HEADER_SIZE && Fits(n, s)
    && match s
       case Call => true
       case BeginConnect => n.want > 0 && (n.lang == Cpp ==> n.sent == 0 && n.taken == None)
       case ConnectWake => n.sent > 0 && n.taken == None && n.c.e.connectSem > 0
       case ConnectRegister => n.taken.Some?
       case AcceptWake => n.a.e.acceptSem > 0
       case AcceptReply => n.woken > 0 && n.replied == None
       case AcceptRegister => n.replied.Some?
       case Listen(who) => NodeOf(n, who).inbox != []
       case Send(who, id, _) => id in NodeOf(n, who).e.semMap
       case Recv(who, id) =>
         var d := NodeOf(n, who);
         id in d.ever && d.ever[id] < |d.e.sems| && d.e.sems[d.ever[id]].count > 0
       case CloseSock(who, id) => id in NodeOf(n, who).e.semMap
  }

  function Put(d: Node, m: Bytes): Node { d.(inbox := d.inbox + [m]) }

  /** listen: an unclassified message is dropped; None if the listener's behaviour is undefined. */
  function ListenNode(d: Node, lang: Lang, junk: Bytes): Option<Node>
    requires Consistent(d.e) && d.inbox != []
  {
    if |d.inbox[0]| > MAX_CHUNK then None
    else match Read(lang, d.inbox[0], junk)
      case Good(f) => Some(d.(inbox := d.inbox[1..], e := OnFrame(d.e, f)))
      case Unknown => Some(d.(inbox := d.inbox[1..]))
      case Undefined => None
  }

  function WakeNode(d: Node, id: int): Node
    requires NodeOk(d) && id in d.ever && d.e.sems[d.ever[id]].count > 0
  {
    WakeConsistent(d.e, id, d.ever[id]);
    d.(e := Wake(d.e, id, d.ever[id]).0)
  }

  function RegisterNode(d: Node, id: int): Node {
    d.(e := Register(d.e, id), ever := d.ever[id := |d.e.sems|])
  }

  ghost function NetApply(n: Net, s: Step, mem: Memory): Option<Net>
    requires NetOk(n) && NetEnabled(n, s, mem)
  {
    match s
    case Call => Some(n.(want := n.want + 1))
    case BeginConnect =>
      Some(n.(want := n.want - 1, sent := n.sent + 1, a := Put(n.a, Build(n.lang, Create, mem.stack))))
    case ConnectWake =>
      var (e', id) := TakeConnection(n.c.e);
      Some(n.(sent := n.sent - 1, taken := Some(id), c := n.c.(e := e')))
    case ConnectRegister => Some(n.(taken := None, c := RegisterNode(n.c, n.taken.value)))
    case AcceptWake => Some(n.(woken := n.woken + 1, a := n.a.(e := n.a.e.(acceptSem := n.a.e.acceptSem - 1))))
    case AcceptReply =>
      var id := NextId(n.a.e);
      Some(n.(woken := n.woken - 1, replied := Some(id), a := n.a.(e := n.a.e.(counter := id)),
              c := Put(n.c, Build(Cpp, Accepted(id), mem.stack))))
    case AcceptRegister => Some(n.(replied := None, a := RegisterNode(n.a, n.replied.value)))
    case Listen(who) =>
      (match ListenNode(NodeOf(n, who), LangOf(n, who), mem.junk)
       case None => None
       case Some(d) => Some(if who == Connector then n.(c := d) else n.(a := d)))
    case Send(who, id, p) =>
      var m := Build(LangOf(n, who), Sock(id, p), mem.stack);
      Some(if who == Connector then n.(a := Put(n.a, m)) else n.(c := Put(n.c, m)))
    case Recv(who, id) =>
      var d := WakeNode(NodeOf(n, who), id);
      Some(if who == Connector then n.(c := d) else n.(a := d))
    case CloseSock(who, id) =>
      var m := Build(LangOf(n, who), Close(id), mem.stack);
      var d := NodeOf(n, who).(e := CloseSocket(NodeOf(n, who).e, id));
      Some(if who == Connector then n.(c := d, a := Put(n.a, m)) else n.(a := d, c := Put(n.c, m)))
  }

  // ---- refinement ----

  ghost predicate Represents(d: Node, reader: Lang, r: Side) {
    && d.e == r.e && d.ever == r.ever && |d.inbox| == |r.inbox|
    && forall i :: 0 <= i < |d.inbox| ==> Carries(reader, d.inbox[i], r.inbox[i])
  }

  ghost predicate Refines(n: Net, w: World) {
    && n.lang == w.lang && n.want == w.want && n.sent == w.sent && n.taken == w.taken
    && n.woken == w.woken && n.replied == w.replied
    && Represents(n.c, n.lang, w.c) && Represents(n.a, Cpp, w.a)
    && w.a.e.counter < NINE_DIGITS
  }

  /** The byte-level system can make exactly the steps that the multiplexer can, as far as they fit. */
  lemma SameChoices(n: Net, w: World, s: Step, mem: Memory)
    requires Refines(n, w)
    ensures NetEnabled(n, s, mem) <==> |mem.stack| == HEADER_SIZE && Fits(n, s) && Enabled(w, s)
  {
    hide Carries, Fits;
  }

  /** What fits: an id of nine digits, a frame of 50000 bytes, and for C++ a message that is not empty. */
  lemma SendFits(n: Net, who: Role, id: int, p: Bytes)
    ensures Fits(n, Send(who, id, p)) <==>
      && 0 <= id < 1_000_000_000 && |Digits(id)| + 6 + |p| <= 50_000
      && (who == Acceptor || n.lang == Cpp ==> p != [])
  {}

  lemma RefinesOk(n: Net, w: World)
    requires Inv(w) && Refines(n, w)
    ensures NetOk(n)
  {
    var issued := Issued(w);
    assert forall i :: i in w.a.ever ==> i in issued;
    assert forall i :: i in w.c.ever ==> i in w.connected + Opt(w.taken) + Coming(w);
    if w.taken.Some? { assert issued[|w.connected|] == w.taken.value; }
    if w.replied.Some? { assert issued[|w.accepted|] == w.replied.value; }
  }

  lemma PutRepresents(d: Node, reader: Lang, r: Side, m: Bytes, f: Frame)
    requires Represents(d, reader, r) && Carries(reader, m, f)
    ensures Represents(Put(d, m), reader, Deliver(r, f))
  {}

  lemma ListenRefines(d: Node, reader: Lang, r: Side, junk: Bytes)
    requires Represents(d, reader, r) && Consistent(r.e) && d.inbox != []
    ensures ListenNode(d, reader, junk).Some? && Represents(ListenNode(d, reader, junk).value, reader, ListenAt(r))
  {
    assert Carries(reader, d.inbox[0], r.inbox[0]);
    assert Read(reader, d.inbox[0], junk) == Good(r.inbox[0]);
  }

  ghost predicate Follows(n: Net, w: World, s: Step, mem: Memory)
    requires Inv(w) && NetOk(n) && NetEnabled(n, s, mem)
  {
    Enabled(w, s) && NetApply(n, s, mem).Some? && Refines(NetApply(n, s, mem).value, Apply(w, s))
  }

  lemma SendRefines(n: Net, w: World, who: Role, f: Frame, mem: Memory)
    requires Refines(n, w) && Sendable(LangOf(n, who), f) && |mem.stack| == HEADER_SIZE
    requires who == Acceptor ==> !f.Create?
    ensures var m := Build(LangOf(n, who), f, mem.stack);
            if who == Connector then Represents(Put(n.a, m), Cpp, Deliver(w.a, f))
            else Represents(Put(n.c, m), n.lang, Deliver(w.c, f))
  {
    var m := Build(LangOf(n, who), f, mem.stack);
    if who == Connector {
      BuiltIsRead(n.lang, Cpp, f, mem.stack);
      PutRepresents(n.a, Cpp, w.a, m, f);
    } else {
      BuiltIsRead(Cpp, n.lang, f, mem.stack);
      PutRepresents(n.c, n.lang, w.c, m, f);
    }
  }

  lemma TrafficRefines(n: Net, w: World, s: Step, mem: Memory)
    requires Inv(w) && Refines(n, w) && NetOk(n) && NetEnabled(n, s, mem)
    requires s.Send? || s.CloseSock?
    ensures Follows(n, w, s, mem)
  {
    SameChoices(n, w, s, mem);
    hide Handshake, Origin, Roles, Pipe, Carries;
    SendRefines(n, w, s.who, if s.Send? then Sock(s.id, s.payload) else Close(s.id), mem);
  }

  lemma AcceptReplyRefines(n: Net, w: World, mem: Memory)
    requires Inv(w) && Refines(n, w) && NetOk(n) && NetEnabled(n, AcceptReply, mem)
    ensures Follows(n, w, AcceptReply, mem)
  {
    SendRefines(n, w, Acceptor, Accepted(NextId(n.a.e)), mem);
  }

  lemma RecvStepRefines(n: Net, w: World, who: Role, id: int, mem: Memory)
    requires Inv(w) && Refines(n, w) && NetOk(n) && NetEnabled(n, Recv(who, id), mem)
    ensures Follows(n, w, Recv(who, id), mem)
  {
    SameChoices(n, w, Recv(who, id), mem);
    WakeConsistent(NodeOf(n, who).e, id, NodeOf(n, who).ever[id]);
    hide Handshake, Origin, Roles, Pipe, Carries, Wake;
  }

  lemma ListenStepRefines(n: Net, w: World, who: Role, mem: Memory)
    requires Inv(w) && Refines(n, w) && NetOk(n) && NetEnabled(n, Listen(who), mem)
    ensures Follows(n, w, Listen(who), mem)
  {
    ListenRefines(NodeOf(n, who), LangOf(n, who), SideOf(w, who), mem.junk);
    ListenSockets(SideOf(w, who));
  }

  lemma ThreadStepRefines(n: Net, w: World, s: Step, mem: Memory)
    requires Inv(w) && Refines(n, w) && NetOk(n) && NetEnabled(n, s, mem)
    requires s in {Call, BeginConnect, ConnectWake, ConnectRegister, AcceptWake, AcceptRegister}
    ensures Follows(n, w, s, mem)
  {
    SameChoices(n, w, s, mem);
    hide Origin, Roles, Pipe, Carries;
    if s.BeginConnect? { SendRefines(n, w, Connector, Create, mem); }
  }

  /** One step at the level of bytes is the same step of the multiplexer: no message is ever misread, dropped
      as unclassified, or read beyond what is defined. */
  lemma StepRefines(n: Net, w: World, s: Step, mem: Memory)
    requires Inv(w) && Refines(n, w) && NetOk(n) && NetEnabled(n, s, mem)
    ensures Follows(n, w, s, mem)
  {
    match s {
      case Listen(who) => ListenStepRefines(n, w, who, mem);
      case Send(who, id, p) => TrafficRefines(n, w, s, mem);
      case CloseSock(who, id) => TrafficRefines(n, w, s, mem);
      case Recv(who, id) => RecvStepRefines(n, w, who, id, mem);
      case AcceptReply => AcceptReplyRefines(n, w, mem);
      case _ => ThreadStepRefines(n, w, s, mem);
    }
  }

  // ---- whole runs ----

  datatype Input = Input(step: Step, mem: Memory)

  /** Some threads run, in any order, with any memory contents. A run ends in None when a listener's behaviour
      is undefined or an endpoint's maps no longer agree. */
  ghost predicate NetCanRun(n: Net, inputs: seq<Input>)
    decreases |inputs|
  {
    inputs != [] ==>
      && NetEnabled(n, inputs[0].step, inputs[0].mem)
      && (NetOk(n) ==>
            var n' := NetApply(n, inputs[0].step, inputs[0].mem);
            n'.Some? ==> NetCanRun(n'.value, inputs[1..]))
  }

  ghost function NetEnd(n: Net, inputs: seq<Input>): Option<Net>
    requires NetCanRun(n, inputs)
    decreases |inputs|
  {
    if inputs == [] then Some(n)
    else if !NetOk(n) then None
    else
      var n' := NetApply(n, inputs[0].step, inputs[0].mem);
      if n' == None then None else NetEnd(n'.value, inputs[1..])
  }

  function Steps(inputs: seq<Input>): seq<Step> {
    if inputs == [] then [] else [inputs[0].step] + Steps(inputs[1..])
  }

  lemma {:induction false} RunRefines(n: Net, w: World, inputs: seq<Input>)
    requires Inv(w) && Refines(n, w) && NetCanRun(n, inputs)
    ensures NetEnd(n, inputs).Some? && CanRun(w, Steps(inputs))
    ensures Refines(NetEnd(n, inputs).value, Run(w, Steps(inputs)))
    decreases |inputs|
  {
    hide Inv, Refines, NetOk, NetEnabled, NetApply, Enabled;
    if inputs != [] {
      var s, mem := inputs[0].step, inputs[0].mem;
      RefinesOk(n, w);
      StepRefines(n, w, s, mem);
      StepInv(w, s);
      RunRefines(NetApply(n, s, mem).value, Apply(w, s), inputs[1..]);
      assert Steps(inputs)[1..] == Steps(inputs[1..]);
    }
  }

  lemma InitRefines(lang: Lang)
    ensures Inv(Init(lang)) && Refines(NetInit(lang), Init(lang))
  {
    InitInv(lang);
  }

  /** Every run of the byte-level system is defined throughout, and the multiplexer can take the very same steps and
      then is in the state that the byte-level system represents. */
  lemma EveryWireRunRefines(lang: Lang, inputs: seq<Input>)
    requires NetCanRun(NetInit(lang), inputs)
    ensures NetEnd(NetInit(lang), inputs).Some? && StartsRun(lang, Steps(inputs))
    ensures Refines(NetEnd(NetInit(lang), inputs).value, RunFromStart(lang, Steps(inputs)))
  {
    hide Inv, Refines;
    InitRefines(lang);
    RunRefines(NetInit(lang), Init(lang), inputs);
  }
}
