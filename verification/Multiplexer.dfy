/** Two message distributors, one only connecting and one only accepting, joined by a reliable channel
    in each direction, with any number of application threads on both sides.

    Granularity: every mfsend is one append, every listen call one step, and so is the wake of recv
    (status check and pop). accept is three steps (wake; choose an id and reply, which it does under
    id_lock; register), connect is three steps (send `create`; wake and pop; register), so that frames
    can arrive between a reply and a registration, as they can in the code. */
module Multiplexer {
  import opened Bytes
  import opened Codec
  import opened Endpoints

  type Messages = seq<Bytes>
  type History = map<int, Messages>

  /** One endpoint and the pipe into it: `ever` has the semaphore of every id registered here so far,
      `inbox` is the channel toward it, and the histories record by id what the peer sent here, what recv
      handed out, what was dropped before the id was registered, and what was dropped at or after close. */
  datatype Side = Side(e: Endpoint, ever: map<int, nat>, inbox: seq<Frame>,
                       sent: History, got: History, early: History, lost: History)

  function At(h: History, id: int): Messages { if id in h then h[id] else [] }

  function Append(h: History, id: int, p: Bytes): History { h[id := At(h, id) + [p]] }

  /** The data frames for `id` still in a channel. */
  function InFlight(ch: seq<Frame>, id: int): Messages {
    if ch == [] then []
    else (if ch[0].Sock? && ch[0].id == id then [ch[0].payload] else []) + InFlight(ch[1..], id)
  }

  lemma {:induction false} InFlightAppend(ch: seq<Frame>, f: Frame, id: int)
    ensures InFlight(ch + [f], id) == InFlight(ch, id) + if f.Sock? && f.id == id then [f.payload] else []
  {
    if ch != [] {
      assert (ch + [f])[1..] == ch[1..] + [f];
      InFlightAppend(ch[1..], f, id);
    }
  }

  // ---- what happens at one side ----

  /** The peer sends `f`. */
  function Deliver(r: Side, f: Frame): (r': Side)
    ensures r' == r.(inbox := r'.inbox, sent := r'.sent)
  {
    r.(inbox := r.inbox + [f], sent := if f.Sock? then Append(r.sent, f.id, f.payload) else r.sent)
  }

  function Pop(r: Side): Side
    requires r.inbox != []
  { r.(inbox := r.inbox[1..]) }

  /** A data frame arrives: queued, or dropped with a message when the id has no socket. */
  function StoreAt(r: Side, id: int, p: Bytes): Side
    requires Consistent(r.e)
  {
    if id in r.e.semMap then r.(e := OnFrame(r.e, Sock(id, p)))
    else if id in r.ever then r.(lost := Append(r.lost, id, p))
    else r.(early := Append(r.early, id, p))
  }

  function ListenAt(r: Side): (r': Side)
    requires Consistent(r.e) && r.inbox != []
    ensures r'.e == OnFrame(r.e, r.inbox[0])
    ensures r' == Pop(r).(e := r'.e, early := r'.early, lost := r'.lost)
  {
    match r.inbox[0]
    case Sock(id, p) => StoreAt(Pop(r), id, p)
    case Close(id) => if id in r.e.semMap then CloseAt(Pop(r), id) else Pop(r)
    case f => Pop(r).(e := OnFrame(r.e, f))
  }

  function CloseAt(r: Side, id: int): (r': Side)
    requires Consistent(r.e) && id in r.e.semMap
    ensures r' == r.(e := r'.e, lost := r'.lost)
  {
    r.(e := CloseSocket(r.e, id), lost := r.lost[id := r.e.queueMap[id]])
  }

  function RegisterAt(r: Side, id: int): Side {
    r.(e := Register(r.e, id), ever := r.ever[id := |r.e.sems|])
  }

  /** A thread that called recv when `id` was live, and so waits on its semaphore, is let through. */
  ghost predicate CanWake(r: Side, id: int) {
    id in r.ever && r.ever[id] < |r.e.sems| && r.e.sems[r.ever[id]].count > 0
  }

  function WakeAt(r: Side, id: int): Side
    requires SideInv(r) && CanWake(r, id)
  {
    WakeSafe(r, id);
    var (e', out) := Wake(r.e, id, r.ever[id]);
    r.(e := e', got := if out.Some? then Append(r.got, id, out.value) else r.got)
  }

  // ---- the invariant of one side ----

  ghost predicate Handles(r: Side) {
    && (forall i :: i in r.ever ==> r.ever[i] < |r.e.sems| && r.e.sems[r.ever[i]].owner == i)
    && (forall i :: i in r.e.semMap ==> i in r.ever && r.ever[i] == r.e.semMap[i])
  }

  /** The mailbox, or what became of it: queued messages while live, lost ones otherwise. */
  function Kept(r: Side, id: int): Messages {
    if id in r.e.queueMap then r.e.queueMap[id] else At(r.lost, id)
  }

  /** The pipe into `r` numbered `id`: nothing is reordered, duplicated, made up or mixed with another id. */
  ghost predicate Pipe(r: Side, id: int) {
    && At(r.sent, id) == At(r.early, id) + At(r.got, id) + Kept(r, id) + InFlight(r.inbox, id)
    && (id !in r.ever ==> At(r.got, id) == [])
    && (id !in r.ever || id in r.e.semMap ==> At(r.lost, id) == [])
  }

  ghost predicate SideInv(r: Side) {
    Consistent(r.e) && Handles(r) && forall id :: Pipe(r, id)
  }

  lemma WakeSafe(r: Side, id: int)
    requires SideInv(r) && CanWake(r, id)
    ensures id in r.e.statusMap && r.e.statusMap[id] != 0 ==> id in r.e.queueMap && r.e.queueMap[id] != []
    ensures Consistent(Wake(r.e, id, r.ever[id]).0)
    ensures Wake(r.e, id, r.ever[id]).1.Some? <==> id in r.e.semMap
  {
    WakeConsistent(r.e, id, r.ever[id]);
  }

  lemma DeliverPipe(r: Side, f: Frame, id: int)
    requires Pipe(r, id)
    ensures Pipe(Deliver(r, f), id)
  {
    InFlightAppend(r.inbox, f, id);
    hide InFlight;
    var before := At(r.early, id) + At(r.got, id) + Kept(r, id);
    var more := if f.Sock? && f.id == id then [f.payload] else [];
    assert At(Deliver(r, f).sent, id) == At(r.sent, id) + more;
    assert before + InFlight(r.inbox, id) + more == before + (InFlight(r.inbox, id) + more);
  }

  lemma DeliverInv(r: Side, f: Frame)
    requires SideInv(r)
    ensures SideInv(Deliver(r, f))
  {
    hide Consistent, Pipe;
    forall id ensures Pipe(Deliver(r, f), id) { DeliverPipe(r, f, id); }
  }

  lemma CarryPipe(r: Side, r': Side, j: int)
    requires Pipe(r, j) && At(r'.sent, j) == At(r.sent, j)
    requires At(r'.early, j) == At(r.early, j) && r'.inbox == r.inbox
    requires At(r'.got, j) + Kept(r', j) == At(r.got, j) + Kept(r, j)
    requires j !in r'.ever ==> At(r'.got, j) == []
    requires j !in r'.ever || j in r'.e.semMap ==> At(r'.lost, j) == []
    ensures Pipe(r', j)
  {
    assert At(r.early, j) + At(r.got, j) + Kept(r, j) == At(r.early, j) + (At(r.got, j) + Kept(r, j));
    assert At(r'.early, j) + At(r'.got, j) + Kept(r', j) == At(r.early, j) + (At(r'.got, j) + Kept(r', j));
  }

  lemma ClosePieces(r: Side, id: int, j: int)
    requires Consistent(r.e) && id in r.e.semMap
    ensures var r' := CloseAt(r, id);
            && Kept(r', j) == Kept(r, j)
            && (j != id ==> At(r'.lost, j) == At(r.lost, j) && (j in r'.e.semMap <==> j in r.e.semMap))
            && id !in r'.e.semMap
  {}

  lemma CloseHandles(r: Side, id: int)
    requires Consistent(r.e) && Handles(r) && id in r.e.semMap
    ensures Handles(CloseAt(r, id)) && Consistent(CloseAt(r, id).e)
  {
    CloseSocketConsistent(r.e, id);
  }

  lemma CloseInv(r: Side, id: int)
    requires SideInv(r) && id in r.e.semMap
    ensures SideInv(CloseAt(r, id))
  {
    CloseHandles(r, id);
    forall j ensures Pipe(CloseAt(r, id), j) {
      ClosePieces(r, id, j);
      CarryPipe(r, CloseAt(r, id), j);
    }
  }

  lemma RegisterInv(r: Side, id: int)
    requires SideInv(r) && id !in r.ever
    ensures SideInv(RegisterAt(r, id))
  {
    RegisterConsistent(r.e, id);
    forall j ensures Pipe(RegisterAt(r, id), j) { assert Pipe(r, j); }
  }

  lemma WakePieces(r: Side, id: int, j: int)
    requires SideInv(r) && CanWake(r, id)
    ensures var r' := WakeAt(r, id);
            && r' == r.(e := r'.e, got := r'.got) && r'.e.semMap == r.e.semMap
            && At(r'.got, j) + Kept(r', j) == At(r.got, j) + Kept(r, j)
            && (At(r'.got, j) == At(r.got, j) || (j == id && At(r'.got, j) != []))
  {
    WakeSafe(r, id);
    assert Consistent(r.e);
    hide SideInv, Pipe;
    if id in r.e.semMap {
      WakeTakesHead(r, id);
      hide Consistent, WakeAt, Wake;
      var q := r.e.queueMap[id];
      assert At(r.got, id) + [q[0]] + q[1..] == At(r.got, id) + q;
    }
  }

  lemma WakeTakesHead(r: Side, id: int)
    requires SideInv(r) && CanWake(r, id) && id in r.e.semMap
    ensures id in r.e.queueMap && r.e.queueMap[id] != []
    ensures var r', q := WakeAt(r, id), r.e.queueMap[id];
            && r'.e.queueMap == r.e.queueMap[id := q[1..]] && r'.got == Append(r.got, id, q[0])
            && r' == r.(e := r'.e, got := r'.got) && r'.e.semMap == r.e.semMap
  {
    WakeSafe(r, id);
    hide Pipe;
  }

  lemma WakeHandles(r: Side, id: int)
    requires SideInv(r) && CanWake(r, id)
    ensures Handles(WakeAt(r, id)) && Consistent(WakeAt(r, id).e)
  {
    WakeSafe(r, id);
  }

  lemma WakeInv(r: Side, id: int)
    requires SideInv(r) && CanWake(r, id)
    ensures SideInv(WakeAt(r, id))
  {
    WakeHandles(r, id);
    forall j ensures Pipe(WakeAt(r, id), j) {
      WakePieces(r, id, j);
      CarryPipe(r, WakeAt(r, id), j);
    }
  }

  /** What is not about the pipe leaves it alone. */
  lemma SameSockets(r: Side, r': Side)
    requires SideInv(r) && Consistent(r'.e)
    requires r' == r.(e := r'.e)
    requires r'.e == r.e.(counter := r'.e.counter, acceptSem := r'.e.acceptSem,
                          connectSem := r'.e.connectSem, connectQueue := r'.e.connectQueue)
    ensures SideInv(r')
  {
    forall id ensures Pipe(r', id) { assert Pipe(r, id); }
  }

  lemma PopInv(r: Side)
    requires SideInv(r) && r.inbox != [] && !r.inbox[0].Sock?
    ensures SideInv(Pop(r))
  {
    forall id ensures Pipe(Pop(r), id) { assert Pipe(r, id); }
  }

  /** A data frame lands at the end of what is kept, or of what came too early. */
  lemma StorePieces(r: Side, id: int, p: Bytes, j: int)
    requires Consistent(r.e) && Handles(r)
    ensures var r', head := StoreAt(r, id, p), if id == j then [p] else [];
            && r' == r.(e := r'.e, early := r'.early, lost := r'.lost)
            && At(r'.early, j) == At(r.early, j) + (if id in r.ever then [] else head)
            && Kept(r', j) == Kept(r, j) + (if id in r.ever then head else [])
            && (id !in r.ever || id in r.e.semMap ==> r'.lost == r.lost)
  {
    if id in r.e.semMap {
    } else if id in r.ever {
    } else {
    }
  }

  lemma StorePipe(r: Side, id: int, p: Bytes, j: int)
    requires Consistent(r.e) && Handles(r) && Pipe(r, j)
    requires r.inbox != [] && r.inbox[0] == Sock(id, p)
    ensures Pipe(StoreAt(Pop(r), id, p), j)
  {
    var r', head := StoreAt(Pop(r), id, p), if id == j then [p] else [];
    StorePieces(Pop(r), id, p, j);
    assert InFlight(r.inbox, j) == head + InFlight(r'.inbox, j);
    Regroup(At(r.early, j), At(r.got, j), Kept(r, j), head, InFlight(r'.inbox, j));
    if head == [] {
      assert At(r.early, j) + [] == At(r.early, j) && Kept(r, j) + [] == Kept(r, j);
    }
  }

  lemma Regroup(early: Messages, got: Messages, kept: Messages, head: Messages, rest: Messages)
    ensures early + got + kept + (head + rest) == early + got + (kept + head) + rest
    ensures got == [] && kept == [] ==> early + got + kept + (head + rest) == (early + head) + got + kept + rest
  {}

  lemma ListenSockets(r: Side)
    requires Consistent(r.e) && r.inbox != []
    ensures var r' := ListenAt(r);
            r'.ever == r.ever && r'.e.counter == r.e.counter && r'.e.semMap.Keys <= r.e.semMap.Keys
  {}

  lemma ListenInv(r: Side)
    requires SideInv(r) && r.inbox != []
    ensures SideInv(ListenAt(r))
  {
    assert Consistent(r.e);
    hide SideInv;
    match r.inbox[0] {
      case Sock(id, p) => StoreInv(r, id, p);
      case Close(id) => PopInv(r); if id in r.e.semMap { CloseInv(Pop(r), id); }
      case f => TokenInv(r);
    }
  }

  lemma TokenInv(r: Side)
    requires SideInv(r) && r.inbox != [] && (r.inbox[0].Create? || r.inbox[0].Accepted?)
    ensures SideInv(ListenAt(r))
  {
    PopInv(r);
    OnFrameConsistent(r.e, r.inbox[0]);
    hide SideInv, Consistent;
    SameSockets(Pop(r), ListenAt(r));
  }

  lemma StoreConsistent(r: Side, id: int, p: Bytes)
    requires Consistent(r.e)
    ensures Consistent(StoreAt(r, id, p).e)
  {
    OnFrameConsistent(r.e, Sock(id, p));
  }

  lemma StoreHandles(r: Side, id: int, p: Bytes)
    requires Consistent(r.e) && Handles(r)
    ensures Handles(StoreAt(r, id, p))
  {
    if id in r.e.semMap {} else {}
  }

  lemma StoreInv(r: Side, id: int, p: Bytes)
    requires SideInv(r) && r.inbox != [] && r.inbox[0] == Sock(id, p)
    ensures SideInv(StoreAt(Pop(r), id, p))
  {
    StoreConsistent(Pop(r), id, p);
    StoreHandles(Pop(r), id, p);
    forall j ensures Pipe(StoreAt(Pop(r), id, p), j) { StorePipe(r, id, p, j); }
  }

  // ---- the two sides ----

  datatype Role = Connector | Acceptor

  /** want: threads inside connect that have not sent `create`; sent: those waiting for the answer;
      taken: the thread that has popped an id and not registered it (it holds id_lock).
      woken: threads inside accept that the semaphore let through; replied: the one that has replied with
      an id and not registered it (it holds id_lock).
      connected, accepted: the ids returned so far by connect and by accept. */
  datatype World = World(lang: Lang, c: Side, a: Side,
                         want: nat, sent: nat, taken: Option<int>,
                         woken: nat, replied: Option<int>,
                         connected: seq<int>, accepted: seq<int>)

  const START: Side := Side(INIT, map[], [], map[], map[], map[], map[])

  function Init(lang: Lang): World { World(lang, START, START, 0, 0, None, 0, None, [], []) }

  datatype Step =
    | Call                                       // an application thread calls connect
    | BeginConnect | ConnectWake | ConnectRegister
    | AcceptWake | AcceptReply | AcceptRegister
    | Listen(who: Role)
    | Send(who: Role, id: int, payload: Bytes)
    | Recv(who: Role, id: int)
    | CloseSock(who: Role, id: int)

  function SideOf(w: World, r: Role): Side { if r == Connector then w.c else w.a }

  /** C++ connect holds id_lock from before its `create` until it has registered; Java takes it after. */
  ghost predicate Enabled(w: World, s: Step) {
    match s
    case Call => true
    case BeginConnect => w.want > 0 && (w.lang == Cpp ==> w.sent == 0 && w.taken == None)
    case ConnectWake => w.sent > 0 && w.taken == None && w.c.e.connectSem > 0
    case ConnectRegister => w.taken.Some?
    case AcceptWake => w.a.e.acceptSem > 0
    case AcceptReply => w.woken > 0 && w.replied == None
    case AcceptRegister => w.replied.Some?
    case Listen(who) => SideOf(w, who).inbox != []
    case Send(who, id, _) => id in SideOf(w, who).e.semMap
    case Recv(who, id) => CanWake(SideOf(w, who), id)
    case CloseSock(who, id) => id in SideOf(w, who).e.semMap
  }

  ghost function Apply(w: World, s: Step): World
    requires Inv(w) && Enabled(w, s)
  {
    match s
    case Call => w.(want := w.want + 1)
    case BeginConnect => w.(want := w.want - 1, sent := w.sent + 1, a := Deliver(w.a, Create))
    case ConnectWake =>
      var (e', id) := TakeConnection(w.c.e);
      w.(sent := w.sent - 1, taken := Some(id), c := w.c.(e := e'))
    case ConnectRegister =>
      w.(taken := None, c := RegisterAt(w.c, w.taken.value), connected := w.connected + [w.taken.value])
    case AcceptWake => w.(woken := w.woken + 1, a := w.a.(e := w.a.e.(acceptSem := w.a.e.acceptSem - 1)))
    case AcceptReply =>
      var id := NextId(w.a.e);
      w.(woken := w.woken - 1, replied := Some(id), a := w.a.(e := w.a.e.(counter := id)),
         c := Deliver(w.c, Accepted(id)))
    case AcceptRegister =>
      w.(replied := None, a := RegisterAt(w.a, w.replied.value), accepted := w.accepted + [w.replied.value])
    case Listen(Connector) => w.(c := ListenAt(w.c))
    case Listen(Acceptor) => w.(a := ListenAt(w.a))
    case Send(Connector, id, p) => w.(a := Deliver(w.a, Sock(id, p)))
    case Send(Acceptor, id, p) => w.(c := Deliver(w.c, Sock(id, p)))
    case Recv(Connector, id) => w.(c := WakeAt(w.c, id))
    case Recv(Acceptor, id) => w.(a := WakeAt(w.a, id))
    case CloseSock(Connector, id) => w.(c := CloseAt(w.c, id), a := Deliver(w.a, Close(id)))
    case CloseSock(Acceptor, id) => w.(a := CloseAt(w.a, id), c := Deliver(w.c, Close(id)))
  }

  // ---- the handshake ----

  function Creates(ch: seq<Frame>): nat {
    if ch == [] then 0 else (if ch[0].Create? then 1 else 0) + Creates(ch[1..])
  }

  function AcceptedIds(ch: seq<Frame>): seq<int> {
    if ch == [] then [] else (if ch[0].Accepted? then [ch[0].id] else []) + AcceptedIds(ch[1..])
  }

  lemma {:induction false} HandshakeAppend(ch: seq<Frame>, f: Frame)
    ensures Creates(ch + [f]) == Creates(ch) + if f.Create? then 1 else 0
    ensures AcceptedIds(ch + [f]) == AcceptedIds(ch) + if f.Accepted? then [f.id] else []
  {
    if ch != [] {
      assert (ch + [f])[1..] == ch[1..] + [f];
      HandshakeAppend(ch[1..], f);
    }
  }

  function Opt(o: Option<int>): seq<int> { if o.Some? then [o.value] else [] }

  /** Ids on their way to a waiting connect. */
  function Coming(w: World): seq<int> { w.c.e.connectQueue + AcceptedIds(w.c.inbox) }

  /** Every id that accept has issued, in the order of issue. */
  function Issued(w: World): seq<int> { w.accepted + Opt(w.replied) }

  ghost predicate Increasing(s: seq<int>, top: int) {
    && (forall i, j :: 0 <= i < j < |s| ==> s[i] < s[j])
    && (forall i :: 0 <= i < |s| ==> 0 < s[i] <= top)
  }

  ghost predicate Handshake(w: World) {
    // every waiting connect has exactly one token somewhere
    && w.sent == Creates(w.a.inbox) + w.a.e.acceptSem + w.woken + |Coming(w)|
    // the ids that connect hands out are those that accept issues, in the same order, each once
    && w.connected + Opt(w.taken) + Coming(w) == Issued(w)
    && w.a.e.counter >= 0 && Increasing(Issued(w), w.a.e.counter)
    && (forall id :: id in w.c.ever <==> id in w.connected)
    && (forall id :: id in w.a.ever <==> id in w.accepted)
    // C++ connect holds id_lock while it waits
    && (w.lang == Cpp ==> w.sent + |Opt(w.taken)| <= 1)
  }

  ghost predicate Roles(w: World) {
    && (forall f :: f in w.a.inbox ==> !f.Accepted?)
    && (forall f :: f in w.c.inbox ==> !f.Create?)
  }

  ghost predicate Origin(w: World) {
    && (forall id :: At(w.a.sent, id) != [] ==> id in w.c.ever)
    && (forall id :: At(w.c.sent, id) != [] ==> id in w.a.ever)
  }

  ghost predicate Inv(w: World) {
    SideInv(w.c) && SideInv(w.a) && Handshake(w) && Roles(w) && Origin(w)
  }

  lemma InitInv(lang: Lang)
    ensures Inv(Init(lang))
  {
    forall id ensures Pipe(START, id) {}
  }

  lemma StepInv(w: World, s: Step)
    requires Inv(w) && Enabled(w, s)
    ensures Inv(Apply(w, s))
  {
    hide Inv;
    match s {
      case Call => CallInv(w);
      case BeginConnect => BeginConnectInv(w);
      case ConnectWake => ConnectWakeInv(w);
      case ConnectRegister => ConnectRegisterInv(w);
      case AcceptWake => AcceptWakeInv(w);
      case AcceptReply => AcceptReplyInv(w);
      case AcceptRegister => AcceptRegisterInv(w);
      case Listen(who) => ListenStepInv(w, who);
      case Send(who, id, p) => SendInv(w, who, id, p);
      case Recv(who, id) => RecvInv(w, who, id);
      case CloseSock(who, id) => CloseStepInv(w, who, id);
    }
  }

  /** Steps that move no id and no token between the threads. */
  lemma QuietInv(w: World, w': World)
    requires Inv(w) && w' == w.(c := w'.c, a := w'.a) && SideInv(w'.c) && SideInv(w'.a)
    requires w'.c.ever == w.c.ever && w'.a.ever == w.a.ever && w'.a.e.counter == w.a.e.counter
    requires Creates(w'.a.inbox) + w'.a.e.acceptSem == Creates(w.a.inbox) + w.a.e.acceptSem
    requires Coming(w') == Coming(w) && Roles(w') && Origin(w')
    ensures Inv(w')
  {}

  lemma CallInv(w: World)
    requires Inv(w)
    ensures Inv(Apply(w, Call))
  {
    hide SideInv;
  }

  lemma AcceptWakeInv(w: World)
    requires Inv(w) && Enabled(w, AcceptWake)
    ensures Inv(Apply(w, AcceptWake))
  {
    SameSockets(w.a, Apply(w, AcceptWake).a);
    hide SideInv;
  }

  lemma BeginConnectInv(w: World)
    requires Inv(w) && Enabled(w, BeginConnect)
    ensures Inv(Apply(w, BeginConnect))
  {
    hide SideInv;
    DeliverInv(w.a, Create);
    HandshakeAppend(w.a.inbox, Create);
  }

  lemma ListenStepInv(w: World, who: Role)
    requires Inv(w) && Enabled(w, Listen(who))
    ensures Inv(Apply(w, Listen(who)))
  {
    var w' := Apply(w, Listen(who));
    ListenInv(SideOf(w, who));
    OnFrameConsistent(SideOf(w, who).e, SideOf(w, who).inbox[0]);
    ListenTokens(SideOf(w, who));
    assert Coming(w') == Coming(w);
    QuietInv(w, w');
  }

  lemma ListenTokens(r: Side)
    requires Consistent(r.e) && r.inbox != []
    ensures var r', f := ListenAt(r), r.inbox[0];
            && (f.Accepted? || Creates(r'.inbox) + r'.e.acceptSem == Creates(r.inbox) + r.e.acceptSem)
            && r'.e.connectQueue + AcceptedIds(r'.inbox) == r.e.connectQueue + AcceptedIds(r.inbox)
  {}

  lemma SendInv(w: World, who: Role, id: int, p: Bytes)
    requires Inv(w) && Enabled(w, Send(who, id, p))
    ensures Inv(Apply(w, Send(who, id, p)))
  {
    assert id in SideOf(w, who).ever;
    hide SideInv;
    var f := Sock(id, p);
    var r := if who == Connector then w.a else w.c;
    DeliverInv(r, f);
    HandshakeAppend(r.inbox, f);
    QuietInv(w, Apply(w, Send(who, id, p)));
  }

  lemma RecvInv(w: World, who: Role, id: int)
    requires Inv(w) && Enabled(w, Recv(who, id))
    ensures Inv(Apply(w, Recv(who, id)))
  {
    WakeInv(SideOf(w, who), id);
    WakeSafe(SideOf(w, who), id);
    QuietInv(w, Apply(w, Recv(who, id)));
  }

  lemma CloseStepInv(w: World, who: Role, id: int)
    requires Inv(w) && Enabled(w, CloseSock(who, id))
    ensures Inv(Apply(w, CloseSock(who, id)))
  {
    var f := Close(id);
    var r := if who == Connector then w.a else w.c;
    CloseInv(SideOf(w, who), id);
    DeliverInv(r, f);
    HandshakeAppend(r.inbox, f);
    QuietInv(w, Apply(w, CloseSock(who, id)));
  }

  lemma ConnectWakeInv(w: World)
    requires Inv(w) && Enabled(w, ConnectWake)
    ensures Inv(Apply(w, ConnectWake))
  {
    var w' := Apply(w, ConnectWake);
    SameSockets(w.c, w'.c);
    assert Coming(w) == [w'.taken.value] + Coming(w');
    assert w'.connected + Opt(w'.taken) + Coming(w') == w.connected + Opt(w.taken) + Coming(w);
  }

  lemma ConnectRegisterInv(w: World)
    requires Inv(w) && Enabled(w, ConnectRegister)
    ensures Inv(Apply(w, ConnectRegister))
  {
    var w' := Apply(w, ConnectRegister);
    var id, n := w.taken.value, |w.connected|;
    assert Issued(w)[n] == id;
    forall i | 0 <= i < n ensures w.connected[i] < id { assert Issued(w)[i] == w.connected[i]; }
    RegisterInv(w.c, id);
    assert w'.connected + Opt(w'.taken) + Coming(w') == w.connected + Opt(w.taken) + Coming(w);
  }

  lemma IncreasingAppend(s: seq<int>, top: int, x: int)
    requires Increasing(s, top) && 0 <= top < x
    ensures Increasing(s + [x], x)
  {}

  lemma AcceptReplySides(w: World)
    requires Inv(w) && Enabled(w, AcceptReply)
    ensures SideInv(Apply(w, AcceptReply).a) && SideInv(Apply(w, AcceptReply).c)
  {
    SameSockets(w.a, Apply(w, AcceptReply).a);
    DeliverInv(w.c, Accepted(NextId(w.a.e)));
  }

  lemma AcceptReplyTokens(w: World)
    requires Inv(w) && Enabled(w, AcceptReply)
    ensures Handshake(Apply(w, AcceptReply))
  {
    var w' := Apply(w, AcceptReply);
    var id := NextId(w.a.e);
    hide SideInv, Roles, Origin, NextId;
    HandshakeAppend(w.c.inbox, Accepted(id));
    IncreasingAppend(Issued(w), w.a.e.counter, id);
    hide Increasing;
    assert AcceptedIds(w'.c.inbox) == AcceptedIds(w.c.inbox) + [id];
    assert Coming(w') == Coming(w) + [id];
    assert Issued(w') == Issued(w) + [id];
    assert w'.connected + Opt(w'.taken) + Coming(w') == Issued(w) + [id];
  }

  lemma AcceptReplyInv(w: World)
    requires Inv(w) && Enabled(w, AcceptReply)
    ensures Inv(Apply(w, AcceptReply))
  {
    hide SideInv, Handshake;
    AcceptReplySides(w);
    AcceptReplyTokens(w);
  }

  lemma AcceptRegisterInv(w: World)
    requires Inv(w) && Enabled(w, AcceptRegister)
    ensures Inv(Apply(w, AcceptRegister))
  {
    var w' := Apply(w, AcceptRegister);
    var id, n := w.replied.value, |w.accepted|;
    assert Issued(w)[n] == id;
    forall i | 0 <= i < n ensures w.accepted[i] < id { assert Issued(w)[i] == w.accepted[i]; }
    RegisterInv(w.a, id);
    assert Issued(w') == Issued(w);
  }
}
