/** What the programs at the two ends see of the byte-level system: the payloads that go into send, and those that
    come out of recv. */
module WirePipes {
  import opened Bytes
  import opened Codec
  import opened Endpoints
  import opened Multiplexer
  import opened Guarantees
  import opened Wire

  /** Given: the peer of `who` hands a payload to send. Returned: recv hands one out at `who`.
      Early: listen drops one at `who`, for an id that was never registered there. */
  datatype Event = Given | Returned | Early

  /** The payload for `id` that a step makes such an event with, if it does. */
  function Payload(n: Net, s: Step, mem: Memory, event: Event, who: Role, id: int): Messages
    requires NetOk(n) && NetEnabled(n, s, mem)
  {
    match event
    case Given => if s.Send? && s.who != who && s.id == id then [s.payload] else []
    case Returned => if s == Recv(who, id) then Out(NodeOf(n, who), id) else []
    case Early => if s == Listen(who) then Dropped(NodeOf(n, who), LangOf(n, who), mem.junk, id) else []
  }

  function Out(d: Node, id: int): Messages
    requires NodeOk(d) && id in d.ever && d.e.sems[d.ever[id]].count > 0
  {
    WakeConsistent(d.e, id, d.ever[id]);
    match Wake(d.e, id, d.ever[id]).1
    case None => []
    case Some(p) => [p]
  }

  function Dropped(d: Node, lang: Lang, junk: Bytes, id: int): Messages
    requires d.inbox != []
  {
    if |d.inbox[0]| > MAX_CHUNK then []
    else match Read(lang, d.inbox[0], junk)
      case Good(Sock(x, p)) => if x == id && x !in d.ever then [p] else []
      case _ => []
  }

  /** The payloads of all such events of a run, in order. */
  ghost function Trace(n: Net, inputs: seq<Input>, event: Event, who: Role, id: int): Messages
    requires NetCanRun(n, inputs)
    decreases |inputs|
  {
    if inputs == [] || !NetOk(n) then []
    else
      var s, mem := inputs[0].step, inputs[0].mem;
      Payload(n, s, mem, event, who, id)
      + match NetApply(n, s, mem)
        case None => []
        case Some(n') => Trace(n', inputs[1..], event, who, id)
  }

  /** Where the multiplexer keeps them. */
  function Record(w: World, event: Event, who: Role): History {
    match event
    case Given => SideOf(w, who).sent
    case Returned => SideOf(w, who).got
    case Early => SideOf(w, who).early
  }

  ghost predicate Records(n: Net, w: World, s: Step, mem: Memory, event: Event, who: Role, id: int)
    requires Inv(w) && Enabled(w, s) && NetOk(n) && NetEnabled(n, s, mem)
  {
    At(Record(Apply(w, s), event, who), id) == At(Record(w, event, who), id) + Payload(n, s, mem, event, who, id)
  }

  // ---- one step ----

  /** Neither end keeps new records. */
  ghost predicate NoNews(r: Side, r': Side) { r'.sent == r.sent && r'.got == r.got && r'.early == r.early }

  ghost predicate OneSide(w: World, w': World, who: Role, r': Side) {
    if who == Connector then w'.c == r' && w'.a == w.a else w'.a == r' && w'.c == w.c
  }

  lemma ThreadNews(w: World, s: Step)
    requires Inv(w) && Enabled(w, s)
    requires !s.Listen? && !s.Recv? && !s.Send? && !s.CloseSock?
    ensures NoNews(w.c, Apply(w, s).c) && NoNews(w.a, Apply(w, s).a)
  {
    InvSides(w);
    hide Inv, SideInv, Consistent;
  }

  lemma CloseNews(w: World, who: Role, id: int)
    requires Inv(w) && Enabled(w, CloseSock(who, id))
    ensures var w' := Apply(w, CloseSock(who, id)); NoNews(w.c, w'.c) && NoNews(w.a, w'.a)
  {
    InvSides(w);
    hide Inv, SideInv, Consistent, CloseAt;
  }

  lemma SendNews(w: World, who: Role, id: int, p: Bytes)
    requires Inv(w) && Enabled(w, Send(who, id, p))
    ensures var w' := Apply(w, Send(who, id, p));
            if who == Connector then w'.c == w.c && NoNews(w.a.(sent := Append(w.a.sent, id, p)), w'.a)
            else w'.a == w.a && NoNews(w.c.(sent := Append(w.c.sent, id, p)), w'.c)
  {
    hide Inv;
  }

  lemma ListenNews(w: World, who: Role)
    requires Inv(w) && Enabled(w, Listen(who))
    ensures Consistent(SideOf(w, who).e)
    ensures OneSide(w, Apply(w, Listen(who)), who, ListenAt(SideOf(w, who)))
  {
    InvSides(w);
    hide Inv, SideInv, Consistent, ListenAt;
  }

  lemma RecvNews(w: World, who: Role, id: int)
    requires Inv(w) && Enabled(w, Recv(who, id))
    ensures SideInv(SideOf(w, who))
    ensures OneSide(w, Apply(w, Recv(who, id)), who, WakeAt(SideOf(w, who), id))
  {
    InvSides(w);
    hide Inv, SideInv, Consistent, WakeAt;
  }

  lemma WakeReturns(d: Node, r: Side, id: int)
    requires SideInv(r) && CanWake(r, id) && NodeOk(d) && d.e == r.e && d.ever == r.ever && id in d.ever
    ensures At(WakeAt(r, id).got, id) == At(r.got, id) + Out(d, id)
    ensures forall j :: j != id ==> At(WakeAt(r, id).got, j) == At(r.got, j)
  {
    WakeSafe(r, id);
    WakeConsistent(d.e, id, d.ever[id]);
    hide Wake, SideInv, NodeOk;
  }

  lemma StoreDrops(r: Side, x: int, p: Bytes, id: int)
    requires Consistent(r.e) && Handles(r)
    ensures At(StoreAt(r, x, p).early, id) == At(r.early, id) + if x == id && x !in r.ever then [p] else []
  {
    StorePieces(r, x, p, id);
  }

  function TooEarly(r: Side, f: Frame, id: int): Messages {
    if f.Sock? && f.id == id && id !in r.ever then [f.payload] else []
  }

  lemma DropsTooEarly(d: Node, lang: Lang, r: Side, junk: Bytes, id: int)
    requires r.inbox != [] && Represents(d, lang, r)
    ensures Dropped(d, lang, junk, id) == TooEarly(r, r.inbox[0], id)
  {
    assert Carries(lang, d.inbox[0], r.inbox[0]);
    assert Read(lang, d.inbox[0], junk) == Good(r.inbox[0]);
    hide Read;
  }

  lemma ListenTooEarly(r: Side, id: int)
    requires Consistent(r.e) && Handles(r) && r.inbox != []
    ensures At(ListenAt(r).early, id) == At(r.early, id) + TooEarly(r, r.inbox[0], id)
  {
    hide StoreAt, OnFrame, CloseAt;
    match r.inbox[0] {
      case Sock(x, p) => StoreDrops(Pop(r), x, p, id);
      case _ => ListenHistories(r);
    }
  }

  lemma ListenDrops(d: Node, lang: Lang, r: Side, junk: Bytes, id: int)
    requires Consistent(r.e) && Handles(r) && r.inbox != [] && Represents(d, lang, r)
    ensures At(ListenAt(r).early, id) == At(r.early, id) + Dropped(d, lang, junk, id)
  {
    hide Represents, Consistent, Handles, ListenAt, Dropped;
    DropsTooEarly(d, lang, r, junk, id);
    ListenTooEarly(r, id);
  }

  lemma ListenRecords(n: Net, w: World, x: Role, mem: Memory, event: Event, who: Role, id: int)
    requires Inv(w) && Refines(n, w) && NetOk(n) && NetEnabled(n, Listen(x), mem) && Enabled(w, Listen(x))
    ensures Records(n, w, Listen(x), mem, event, who, id)
  {
    hide Inv, SideInv, Consistent, Apply, ListenAt, NetOk, Represents, Dropped, Handles, Pipe;
    ListenNews(w, x);
    ListenHistories(SideOf(w, x));
    if event == Early && x == who { ListenEarly(n, w, x, mem, id); }
  }

  lemma ListenEarly(n: Net, w: World, x: Role, mem: Memory, id: int)
    requires Inv(w) && Refines(n, w) && NetOk(n) && NetEnabled(n, Listen(x), mem) && Enabled(w, Listen(x))
    requires Consistent(SideOf(w, x).e)
    ensures At(ListenAt(SideOf(w, x)).early, id)
         == At(SideOf(w, x).early, id) + Dropped(NodeOf(n, x), LangOf(n, x), mem.junk, id)
  {
    InvSides(w);
    assert Represents(NodeOf(n, x), LangOf(n, x), SideOf(w, x));
    hide Inv, Represents, ListenAt, Dropped;
    ListenDrops(NodeOf(n, x), LangOf(n, x), SideOf(w, x), mem.junk, id);
  }

  lemma RecvRecords(n: Net, w: World, x: Role, j: int, mem: Memory, event: Event, who: Role, id: int)
    requires Inv(w) && Refines(n, w) && NetOk(n) && NetEnabled(n, Recv(x, j), mem) && Enabled(w, Recv(x, j))
    ensures Records(n, w, Recv(x, j), mem, event, who, id)
  {
    hide Inv, SideInv, Refines, Apply, WakeAt, NetOk, NodeOk, Out, CanWake, Enabled;
    RecvNews(w, x, j);
    RecvAt(n, w, x, j, mem);
    if event == Returned {
      WakeReturns(NodeOf(n, x), SideOf(w, x), j);
    } else {
      RecvKeeps(SideOf(w, x), j);
      hide NetEnabled;
    }
  }

  lemma RecvKeeps(r: Side, j: int)
    requires SideInv(r) && CanWake(r, j)
    ensures WakeAt(r, j).sent == r.sent && WakeAt(r, j).early == r.early
  {
    WakePieces(r, j, j);
  }

  lemma RecvAt(n: Net, w: World, x: Role, j: int, mem: Memory)
    requires Inv(w) && Refines(n, w) && NetOk(n) && NetEnabled(n, Recv(x, j), mem) && Enabled(w, Recv(x, j))
    ensures var d, r := NodeOf(n, x), SideOf(w, x);
            SideInv(r) && CanWake(r, j) && NodeOk(d) && d.e == r.e && d.ever == r.ever && j in d.ever
  {
    hide SideInv, NodeOk;
  }

  lemma SendRecords(n: Net, w: World, x: Role, j: int, p: Bytes, mem: Memory, event: Event, who: Role, id: int)
    requires Inv(w) && NetOk(n) && NetEnabled(n, Send(x, j, p), mem) && Enabled(w, Send(x, j, p))
    ensures Records(n, w, Send(x, j, p), mem, event, who, id)
  {
    hide Inv, Enabled, Apply, NetOk, NetEnabled;
    SendNews(w, x, j, p);
    match event {
      case Given =>
      case Returned =>
      case Early =>
    }
  }

  lemma OtherRecords(n: Net, w: World, s: Step, mem: Memory, event: Event, who: Role, id: int)
    requires Inv(w) && NetOk(n) && NetEnabled(n, s, mem) && Enabled(w, s) && !s.Listen? && !s.Recv? && !s.Send?
    ensures Records(n, w, s, mem, event, who, id)
  {
    hide Inv, Enabled, Apply, NetOk, NetEnabled;
    if s.CloseSock? { CloseNews(w, s.who, s.id); } else { ThreadNews(w, s); }
    assert Payload(n, s, mem, event, who, id) == [];
  }

  lemma StepRecords(n: Net, w: World, s: Step, mem: Memory, event: Event, who: Role, id: int)
    requires Inv(w) && Refines(n, w) && NetOk(n) && NetEnabled(n, s, mem) && Enabled(w, s)
    ensures Records(n, w, s, mem, event, who, id)
  {
    hide Inv, Refines, NetOk, NetEnabled, Enabled, Records;
    match s {
      case Listen(x) => ListenRecords(n, w, x, mem, event, who, id);
      case Recv(x, j) => RecvRecords(n, w, x, j, mem, event, who, id);
      case Send(x, j, p) => SendRecords(n, w, x, j, p, mem, event, who, id);
      case _ => OtherRecords(n, w, s, mem, event, who, id);
    }
  }

  // ---- whole runs ----

  lemma {:induction false} RunRecords(n: Net, w: World, inputs: seq<Input>, event: Event, who: Role, id: int)
    requires Inv(w) && Refines(n, w) && NetCanRun(n, inputs)
    ensures CanRun(w, Steps(inputs))
    ensures At(Record(Run(w, Steps(inputs)), event, who), id)
         == At(Record(w, event, who), id) + Trace(n, inputs, event, who, id)
    decreases |inputs|
  {
    hide Inv, Refines, NetOk, NetEnabled, NetApply, Enabled, Record, Payload;
    RunRefines(n, w, inputs);
    if inputs != [] {
      var s, mem := inputs[0].step, inputs[0].mem;
      RefinesOk(n, w);
      StepRefines(n, w, s, mem);
      StepInv(w, s);
      StepRecords(n, w, s, mem, event, who, id);
      RunRecords(NetApply(n, s, mem).value, Apply(w, s), inputs[1..], event, who, id);
      assert Steps(inputs)[1..] == Steps(inputs[1..]);
    }
  }

  lemma PipeSplits(w: World, who: Role, id: int)
    requires Inv(w)
    ensures var r := SideOf(w, who);
            && At(r.early, id) + At(r.got, id) <= At(r.sent, id)
            && (id in r.e.queueMap && r.inbox == [] ==>
                  At(r.sent, id) == At(r.early, id) + At(r.got, id) + r.e.queueMap[id])
  {
    var r := SideOf(w, who);
    assert Pipe(r, id);
    assert At(r.sent, id) == At(r.early, id) + At(r.got, id) + (Kept(r, id) + InFlight(r.inbox, id));
  }

  lemma NothingRecorded(lang: Lang, event: Event, who: Role, id: int)
    ensures At(Record(Init(lang), event, who), id) == []
  {}

  lemma SameEnds(n: Net, w: World, who: Role)
    requires Refines(n, w)
    ensures NodeOf(n, who).e == SideOf(w, who).e && |NodeOf(n, who).inbox| == |SideOf(w, who).inbox|
  {}

  /** In every byte-level run, for a C++ or a Java connector, for every id and in both directions: the payloads that
      recv has handed out are exactly those given to the peer's send, in order and byte for byte, after the ones
      dropped before registration; and on a live socket with an empty channel all others are in its queue. */
  lemma BytesArriveInOrder(lang: Lang, inputs: seq<Input>, who: Role, id: int)
    requires NetCanRun(NetInit(lang), inputs)
    ensures NetEnd(NetInit(lang), inputs).Some?
    ensures var n := NetInit(lang);
            var given, returned, early :=
              Trace(n, inputs, Given, who, id), Trace(n, inputs, Returned, who, id), Trace(n, inputs, Early, who, id);
            var d := NodeOf(NetEnd(n, inputs).value, who);
            && early + returned <= given
            && (id in d.e.queueMap && d.inbox == [] ==> given == early + returned + d.e.queueMap[id])
  {
    hide Inv, Refines, NetCanRun, Trace, NetEnd, Steps, Run;
    InitRefines(lang);
    EveryWireRunRefines(lang, inputs);
    var w := RunFromStart(lang, Steps(inputs));
    forall event: Event ensures At(Record(w, event, who), id) == Trace(NetInit(lang), inputs, event, who, id) {
      NothingRecorded(lang, event, who, id);
      RunRecords(NetInit(lang), Init(lang), inputs, event, who, id);
    }
    assert At(Record(w, Given, who), id) == Trace(NetInit(lang), inputs, Given, who, id);
    assert At(Record(w, Returned, who), id) == Trace(NetInit(lang), inputs, Returned, who, id);
    assert At(Record(w, Early, who), id) == Trace(NetInit(lang), inputs, Early, who, id);
    PipeSplits(w, who, id);
    SameEnds(NetEnd(NetInit(lang), inputs).value, w, who);
  }
}
