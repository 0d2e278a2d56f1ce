/** What the multiplexer guarantees over whole runs. */
module Guarantees {
  import opened Bytes
  import opened Codec
  import opened Endpoints
  import opened Multiplexer

  ghost predicate CanRun(w: World, steps: seq<Step>)
    requires Inv(w)
    decreases |steps|
  {
    steps != [] ==> Enabled(w, steps[0]) && (StepInv(w, steps[0]); CanRun(Apply(w, steps[0]), steps[1..]))
  }

  /** Every state that is reached keeps the invariant. */
  ghost function Run(w: World, steps: seq<Step>): (w': World)
    requires Inv(w) && CanRun(w, steps)
    ensures Inv(w')
    decreases |steps|
  {
    if steps == [] then w
    else
      StepInv(w, steps[0]);
      Run(Apply(w, steps[0]), steps[1..])
  }

  ghost predicate Reachable(w: World) {
    exists lang, steps :: StartsRun(lang, steps) && w == RunFromStart(lang, steps)
  }

  ghost predicate StartsRun(lang: Lang, steps: seq<Step>) {
    InitInv(lang);
    CanRun(Init(lang), steps)
  }

  ghost function RunFromStart(lang: Lang, steps: seq<Step>): (w: World)
    requires StartsRun(lang, steps)
    ensures Inv(w)
  {
    InitInv(lang);
    Run(Init(lang), steps)
  }

  lemma {:induction false} RunAppend(w: World, steps: seq<Step>, s: Step)
    requires Inv(w) && CanRun(w, steps) && Enabled(Run(w, steps), s)
    ensures CanRun(w, steps + [s]) && Run(w, steps + [s]) == Apply(Run(w, steps), s)
    decreases |steps|
  {
    hide Inv;
    if steps == [] {
      assert [] + [s] == [s];
      StepInv(w, s);
      assert CanRun(Apply(w, s), []);
    } else {
      assert (steps + [s])[1..] == steps[1..] + [s];
      StepInv(w, steps[0]);
      RunAppend(Apply(w, steps[0]), steps[1..], s);
    }
  }

  lemma ReachableStep(w: World, s: Step)
    requires Reachable(w) && Enabled(w, s)
    ensures Reachable(Apply(w, s))
  {
    hide Inv;
    var lang, steps :| StartsRun(lang, steps) && w == RunFromStart(lang, steps);
    InitInv(lang);
    RunAppend(Init(lang), steps, s);
    assert StartsRun(lang, steps + [s]) && Apply(w, s) == RunFromStart(lang, steps + [s]);
  }

  lemma InvSides(w: World)
    requires Inv(w)
    ensures SideInv(w.c) && SideInv(w.a) && Consistent(w.c.e) && Consistent(w.a.e)
  {}

  // ---- independent FIFO pipes ----

  /** In every reachable state and for every id, in either direction: what was sent is what was dropped before
      registration, then what recv returned, then the queue (or, after close, what close discarded), then what
      is still in the channel. So the messages received are a contiguous run of those sent, and none is
      reordered, repeated, or taken from another id. */
  lemma FifoPipes(w: World, who: Role, id: int)
    requires Reachable(w)
    ensures var r := SideOf(w, who);
            && At(r.sent, id) == At(r.early, id) + At(r.got, id) + Kept(r, id) + InFlight(r.inbox, id)
            && At(r.got, id) == At(r.sent, id)[|At(r.early, id)|..|At(r.early, id)| + |At(r.got, id)|]
            && (id in r.e.semMap ==> Kept(r, id) == r.e.queueMap[id] && At(r.lost, id) == [])
  {
    assert Pipe(SideOf(w, who), id);
  }

  ghost predicate PopsOldest(r: Side, id: int)
    requires SideInv(r) && CanWake(r, id) && id in r.e.semMap
  {
    && r.e.sems[r.ever[id]].count == |r.e.queueMap[id]| > 0
    && At(WakeAt(r, id).got, id) == At(r.got, id) + [r.e.queueMap[id][0]]
  }

  /** In every reachable state no receiver or connector can be let through onto an empty queue, the maps have
      the same live ids with status 1, and all other recorded ids have status 0. */
  lemma Mailboxes(w: World, who: Role, id: int)
    requires Reachable(w)
    ensures var r := SideOf(w, who);
            && r.e.connectSem == |r.e.connectQueue|
            && (id in r.e.semMap <==> id in r.e.queueMap)
            && (id in r.e.semMap <==> id in r.e.statusMap && r.e.statusMap[id] == 1)
            && (id in r.e.statusMap && id !in r.e.semMap ==> r.e.statusMap[id] == 0)
            && (id in r.e.semMap ==> (CanWake(r, id) <==> r.e.queueMap[id] != []))
            && (id in r.e.semMap && CanWake(r, id) ==> PopsOldest(r, id))
  {
    var r := SideOf(w, who);
    if CanWake(r, id) { WakeSafe(r, id); }
  }

  ghost predicate ClosedAndAwake(r: Side, r': Side, id: int)
    requires SideInv(r') && id in r.e.queueMap
  {
    && id !in r'.e.semMap && CanWake(r', id)
    && r'.e.sems[r'.ever[id]].count == |r.e.queueMap[id]| + 1
    && At(r'.lost, id) == r.e.queueMap[id]
    && WakeAt(r', id).got == r'.got
  }

  lemma CloseWakes(r: Side, id: int)
    requires SideInv(r) && id in r.e.semMap
    ensures SideInv(CloseAt(r, id)) && ClosedAndAwake(r, CloseAt(r, id), id)
  {
    CloseInv(r, id);
    CloseSocketConsistent(r.e, id);
    WakeSafe(CloseAt(r, id), id);
  }

  lemma ListenToClose(r: Side, id: int)
    requires Consistent(r.e) && r.inbox != [] && r.inbox[0] == Close(id) && id in r.e.semMap
    ensures ListenAt(r) == CloseAt(Pop(r), id)
  {}

  /** Closing a socket, from either end, lets a blocked receiver through, and what it gets is "closed". */
  lemma CloseWakesReceiver(w: World, s: Step, who: Role, id: int)
    requires Inv(w) && Enabled(w, s) && id in SideOf(w, who).e.semMap
    requires s == CloseSock(who, id) || (s == Listen(who) && SideOf(w, who).inbox[0] == Close(id))
    ensures Inv(Apply(w, s))
    ensures ClosedAndAwake(SideOf(w, who), SideOf(Apply(w, s), who), id)
  {
    hide Inv, ClosedAndAwake;
    StepInv(w, s);
    if s.Listen? { ListenWakes(w, who, id); } else { CloseStepWakes(w, who, id); }
  }

  lemma CloseStepWakes(w: World, who: Role, id: int)
    requires Inv(w) && Enabled(w, CloseSock(who, id)) && Inv(Apply(w, CloseSock(who, id)))
    ensures ClosedAndAwake(SideOf(w, who), SideOf(Apply(w, CloseSock(who, id)), who), id)
  {
    InvSides(w);
    hide Inv, SideInv, Consistent, CanWake, CloseAt, WakeAt;
    CloseWakes(SideOf(w, who), id);
  }

  lemma ListenWakes(w: World, who: Role, id: int)
    requires Inv(w) && Enabled(w, Listen(who)) && Inv(Apply(w, Listen(who)))
    requires id in SideOf(w, who).e.semMap && SideOf(w, who).inbox[0] == Close(id)
    ensures ClosedAndAwake(SideOf(w, who), SideOf(Apply(w, Listen(who)), who), id)
  {
    InvSides(w);
    hide Inv, SideInv, Consistent, CanWake, ListenAt, CloseAt, WakeAt;
    var r := SideOf(w, who);
    PopInv(r);
    ListenToClose(r, id);
    CloseWakes(Pop(r), id);
  }

  // ---- ids ----

  /** In every reachable state the ids handed out by connect are, in order and each exactly once, the first of
      those that accept issued; issued ids strictly increase; and the connects that wait are matched one to
      one by creates, permits, woken accepts and ids on their way. */
  lemma Rendezvous(w: World)
    requires Reachable(w)
    ensures w.connected <= Issued(w) && w.accepted <= Issued(w) && |Issued(w)| <= |w.accepted| + 1
    ensures forall i, j :: 0 <= i < j < |Issued(w)| ==> Issued(w)[i] < Issued(w)[j] <= w.a.e.counter
    ensures w.sent == Creates(w.a.inbox) + w.a.e.acceptSem + w.woken + |Coming(w)|
    ensures |Issued(w)| == |w.connected| + |Opt(w.taken)| + |Coming(w)|
  {
    assert Issued(w) == w.connected + (Opt(w.taken) + Coming(w));
  }

  /** accept never issues an id that was issued before, or that is live. */
  lemma FreshIds(w: World)
    requires Inv(w) && Enabled(w, AcceptReply)
    ensures var id := NextId(w.a.e);
            && id !in w.a.e.semMap && id !in w.a.ever && id !in w.c.ever && id !in Issued(w)
            && Issued(Apply(w, AcceptReply)) == Issued(w) + [id]
  {
    var id := NextId(w.a.e);
    assert forall x :: x in w.accepted ==> x in Issued(w);
    assert forall x :: x in w.connected ==> x in w.connected + Opt(w.taken) + Coming(w);
  }

  ghost predicate Closed(r: Side, id: int) { id in r.ever && id !in r.e.semMap }

  lemma ClosedStep(w: World, s: Step, who: Role, id: int)
    requires Inv(w) && Enabled(w, s) && Closed(SideOf(w, who), id)
    ensures Closed(SideOf(Apply(w, s), who), id)
  {
    InvSides(w);
    hide Inv, SideInv, Consistent, CanWake, ListenAt, CloseAt, WakeAt;
    match s {
      case ConnectRegister => TakenIsNew(w);
      case AcceptRegister => RepliedIsNew(w);
      case Listen(x) => ClosedByListen(w, x, who, id);
      case Recv(x, j) => WakePieces(SideOf(w, x), j, id);
      case CloseSock(x, j) => ClosedByClose(w, x, j, who, id);
      case _ =>
    }
  }

  lemma ClosedByListen(w: World, x: Role, who: Role, id: int)
    requires Inv(w) && Enabled(w, Listen(x)) && Closed(SideOf(w, who), id)
    ensures Closed(SideOf(Apply(w, Listen(x)), who), id)
  {
    InvSides(w);
    hide Inv, SideInv, Consistent, ListenAt;
    ListenSockets(SideOf(w, x));
  }

  lemma ClosedByClose(w: World, x: Role, j: int, who: Role, id: int)
    requires Inv(w) && Enabled(w, CloseSock(x, j)) && Closed(SideOf(w, who), id)
    ensures Closed(SideOf(Apply(w, CloseSock(x, j)), who), id)
  {
    InvSides(w);
    hide Inv, SideInv, Consistent, CloseAt;
    ClosePieces(SideOf(w, x), j, id);
  }

  lemma TakenIsNew(w: World)
    requires Inv(w) && w.taken.Some?
    ensures w.taken.value !in w.c.ever
  {
    var n := |w.connected|;
    assert Issued(w)[n] == w.taken.value;
    forall i | 0 <= i < n ensures w.connected[i] < w.taken.value { assert Issued(w)[i] == w.connected[i]; }
  }

  lemma RepliedIsNew(w: World)
    requires Inv(w) && w.replied.Some?
    ensures w.replied.value !in w.a.ever
  {
    var n := |w.accepted|;
    assert Issued(w)[n] == w.replied.value;
    forall i | 0 <= i < n ensures w.accepted[i] < w.replied.value { assert Issued(w)[i] == w.accepted[i]; }
  }

  ghost predicate LateFrame(r: Side, id: int) {
    r.inbox != [] && (r.inbox[0].Sock? || r.inbox[0].Close?) && r.inbox[0].id == id
  }

  lemma LateFrameNow(w: World, who: Role, id: int)
    requires Inv(w) && Closed(SideOf(w, who), id) && LateFrame(SideOf(w, who), id)
    ensures ListenAt(SideOf(w, who)).e == SideOf(w, who).e
  {
    LateFrameIgnored(SideOf(w, who).e, SideOf(w, who).inbox[0]);
  }

  /** A closed id stays closed through any further run, so that a data or close frame for it that arrives
      late changes nothing at the endpoint: it can reach no other connection. */
  lemma {:induction false} LateFramesAreHarmless(w: World, steps: seq<Step>, who: Role, id: int)
    requires Inv(w) && CanRun(w, steps) && Closed(SideOf(w, who), id)
    ensures var r := SideOf(Run(w, steps), who);
            && Closed(r, id)
            && (LateFrame(r, id) ==> ListenAt(r).e == r.e)
    decreases |steps|
  {
    hide Inv, LateFrame;
    if steps == [] {
      if LateFrame(SideOf(w, who), id) { LateFrameNow(w, who, id); }
    } else {
      StepInv(w, steps[0]);
      ClosedStep(w, steps[0], who, id);
      LateFramesAreHarmless(Apply(w, steps[0]), steps[1..], who, id);
    }
  }

  // ---- all receivers of a closed socket ----

  /** How many receivers of `id` were let through. */
  function Wakes(steps: seq<Step>, who: Role, id: int): nat {
    if steps == [] then 0 else (if steps[0] == Recv(who, id) then 1 else 0) + Wakes(steps[1..], who, id)
  }

  /** Posts left for the receivers that still wait on the semaphore `id` was registered with. */
  function Permits(r: Side, id: int): nat {
    if id in r.ever && r.ever[id] < |r.e.sems| then r.e.sems[r.ever[id]].count else 0
  }

  /** A step at this end leaves the permits and the messages received as they are, but for `taken` permits. */
  ghost predicate Leaves(r: Side, r': Side, id: int, taken: nat) {
    Permits(r', id) + taken == Permits(r, id) && At(r'.got, id) == At(r.got, id)
  }

  lemma ListenLeaves(r: Side, id: int)
    requires Consistent(r.e) && Handles(r) && Closed(r, id) && r.inbox != []
    ensures Leaves(r, ListenAt(r), id, 0)
  {
    ListenHistories(r);
  }

  lemma CloseLeaves(r: Side, j: int, id: int)
    requires Consistent(r.e) && Handles(r) && Closed(r, id) && j in r.e.semMap
    ensures Leaves(r, CloseAt(r, j), id, 0)
  {}

  lemma WakeLeaves(r: Side, j: int, id: int)
    requires SideInv(r) && Closed(r, id) && CanWake(r, j)
    ensures Leaves(r, WakeAt(r, j), id, if j == id then 1 else 0)
  {
    WakeSafe(r, j);
  }

  lemma RegisterLeaves(r: Side, j: int, id: int)
    requires SideInv(r) && Closed(r, id) && j !in r.ever
    ensures Leaves(r, RegisterAt(r, j), id, 0)
  {}

  ghost predicate StepLeaves(w: World, s: Step, who: Role, id: int)
    requires Inv(w) && Enabled(w, s)
  {
    Leaves(SideOf(w, who), SideOf(Apply(w, s), who), id, if s == Recv(who, id) then 1 else 0)
  }

  lemma ListenStepLeaves(w: World, x: Role, who: Role, id: int)
    requires Inv(w) && Enabled(w, Listen(x)) && Closed(SideOf(w, who), id)
    ensures StepLeaves(w, Listen(x), who, id)
  {
    InvSides(w);
    hide Inv, Consistent, Pipe, ListenAt, Handles, Leaves, Closed;
    if x == who { ListenLeaves(SideOf(w, x), id); } else { NothingLeaves(SideOf(w, who), SideOf(w, who), id); }
  }

  lemma RecvStepLeaves(w: World, x: Role, j: int, who: Role, id: int)
    requires Inv(w) && Enabled(w, Recv(x, j)) && Closed(SideOf(w, who), id)
    ensures StepLeaves(w, Recv(x, j), who, id)
  {
    InvSides(w);
    hide Inv, SideInv, Consistent, WakeAt, CanWake, Leaves, Closed;
    if x == who { WakeLeaves(SideOf(w, x), j, id); } else { NothingLeaves(SideOf(w, who), SideOf(w, who), id); }
  }

  lemma CloseStepLeaves(w: World, x: Role, j: int, who: Role, id: int)
    requires Inv(w) && Enabled(w, CloseSock(x, j)) && Closed(SideOf(w, who), id)
    ensures StepLeaves(w, CloseSock(x, j), who, id)
  {
    InvSides(w);
    hide Inv, Consistent, Pipe, CloseAt, Handles, Leaves, Closed;
    if x == who { CloseLeaves(SideOf(w, x), j, id); }
    else { NothingLeaves(SideOf(w, who), SideOf(Apply(w, CloseSock(x, j)), who), id); }
  }

  lemma RegisterStepLeaves(w: World, s: Step, who: Role, id: int)
    requires Inv(w) && Enabled(w, s) && Closed(SideOf(w, who), id) && (s.ConnectRegister? || s.AcceptRegister?)
    ensures StepLeaves(w, s, who, id)
  {
    InvSides(w);
    hide Inv, SideInv, RegisterAt, Consistent, Leaves, Closed;
    if s.ConnectRegister? {
      TakenIsNew(w);
      if who == Connector { RegisterLeaves(w.c, w.taken.value, id); } else { NothingLeaves(w.a, w.a, id); }
    } else {
      RepliedIsNew(w);
      if who == Acceptor { RegisterLeaves(w.a, w.replied.value, id); } else { NothingLeaves(w.c, w.c, id); }
    }
  }

  lemma NothingLeaves(r: Side, r': Side, id: int)
    requires r'.e.sems == r.e.sems && r'.ever == r.ever && r'.got == r.got
    ensures Leaves(r, r', id, 0)
  {}

  lemma ThreadStepLeaves(w: World, s: Step, who: Role, id: int)
    requires Inv(w) && Enabled(w, s) && Closed(SideOf(w, who), id)
    requires s in {Call, BeginConnect, ConnectWake, AcceptWake, AcceptReply} || s.Send?
    ensures StepLeaves(w, s, who, id)
  {
    hide Inv, Leaves, Closed, NextId;
    NothingLeaves(SideOf(w, who), SideOf(Apply(w, s), who), id);
  }

  lemma ClosedStepLeaves(w: World, s: Step, who: Role, id: int)
    requires Inv(w) && Enabled(w, s) && Closed(SideOf(w, who), id)
    ensures StepLeaves(w, s, who, id)
  {
    hide Inv, Enabled, StepLeaves;
    match s {
      case Listen(x) => ListenStepLeaves(w, x, who, id);
      case Recv(x, j) => RecvStepLeaves(w, x, j, who, id);
      case CloseSock(x, j) => CloseStepLeaves(w, x, j, who, id);
      case ConnectRegister => RegisterStepLeaves(w, s, who, id);
      case AcceptRegister => RegisterStepLeaves(w, s, who, id);
      case _ => ThreadStepLeaves(w, s, who, id);
    }
  }

  lemma {:induction false} ClosedRunLeaves(w: World, steps: seq<Step>, who: Role, id: int)
    requires Inv(w) && CanRun(w, steps) && Closed(SideOf(w, who), id)
    ensures Leaves(SideOf(w, who), SideOf(Run(w, steps), who), id, Wakes(steps, who, id))
    ensures Closed(SideOf(Run(w, steps), who), id)
    decreases |steps|
  {
    hide Inv, Enabled, Permits, Closed, SideOf;
    if steps != [] {
      StepInv(w, steps[0]);
      ClosedStep(w, steps[0], who, id);
      ClosedStepLeaves(w, steps[0], who, id);
      ClosedRunLeaves(Apply(w, steps[0]), steps[1..], who, id);
    }
  }

  /** A step with which `id` is closed at `who`, by its own program or by the peer's close frame. */
  ghost predicate Closes(w: World, s: Step, who: Role, id: int) {
    && Enabled(w, s) && id in SideOf(w, who).e.semMap
    && (s == CloseSock(who, id) || (s == Listen(who) && SideOf(w, who).inbox[0] == Close(id)))
  }

  lemma JustClosed(w: World, s: Step, who: Role, id: int)
    requires Inv(w) && Closes(w, s, who, id)
    ensures Inv(Apply(w, s))
    ensures var r, r' := SideOf(w, who), SideOf(Apply(w, s), who);
            id in r.e.queueMap && Closed(r', id) && Permits(r', id) == |r.e.queueMap[id]| + 1
  {
    CloseWakesReceiver(w, s, who, id);
    hide Inv, SideInv;
  }

  lemma PermitsWake(w: World, who: Role, id: int)
    requires Inv(w) && Closed(SideOf(w, who), id)
    ensures CanWake(SideOf(w, who), id) <==> Permits(SideOf(w, who), id) > 0
  {}

  /** After a close, in any run: at most one receiver more gets through than messages were discarded, none of them
      gets a message, and the next one can go on exactly while fewer have. */
  lemma WaitersAfterClose(w: World, s: Step, steps: seq<Step>, who: Role, id: int)
    requires Inv(w) && Closes(w, s, who, id)
    ensures Inv(Apply(w, s)) && id in SideOf(w, who).e.queueMap
    ensures CanRun(Apply(w, s), steps) ==>
      var most, r := |SideOf(w, who).e.queueMap[id]| + 1, SideOf(Run(Apply(w, s), steps), who);
      && Wakes(steps, who, id) <= most && (CanWake(r, id) <==> Wakes(steps, who, id) < most)
      && At(r.got, id) == At(SideOf(Apply(w, s), who).got, id)
  {
    hide Inv, Closed, Permits, CanWake;
    JustClosed(w, s, who, id);
    if CanRun(Apply(w, s), steps) {
      ClosedRunLeaves(Apply(w, s), steps, who, id);
      PermitsWake(Run(Apply(w, s), steps), who, id);
    }
  }

  ghost predicate LetsThrough(w: World, steps: seq<Step>, who: Role, id: int, n: nat)
    requires Inv(w)
  {
    CanRun(w, steps) && Wakes(steps, who, id) == n
  }

  lemma {:induction false} WakeTimes(w: World, who: Role, id: int, n: nat)
    requires Inv(w) && Closed(SideOf(w, who), id) && n <= Permits(SideOf(w, who), id)
    ensures LetsThrough(w, seq(n, _ => Recv(who, id)), who, id, n)
    decreases n
  {
    hide Inv, Closed, Permits;
    var steps := seq(n, _ => Recv(who, id));
    if n > 0 {
      PermitsWake(w, who, id);
      StepInv(w, steps[0]);
      ClosedStep(w, steps[0], who, id);
      ClosedStepLeaves(w, steps[0], who, id);
      WakeTimes(Apply(w, steps[0]), who, id, n - 1);
      assert steps[1..] == seq(n - 1, _ => Recv(who, id));
    }
  }

  /** So if n receivers wait on a socket when it is closed, all of them get through if and only if n is at most the
      number of queued messages and one: with an empty queue a second receiver waits for ever. */
  lemma AllWaitersWakeIff(w: World, s: Step, who: Role, id: int, n: nat)
    requires Inv(w) && Closes(w, s, who, id)
    ensures Inv(Apply(w, s)) && id in SideOf(w, who).e.queueMap
    ensures (exists steps :: LetsThrough(Apply(w, s), steps, who, id, n)) <==> n <= |SideOf(w, who).e.queueMap[id]| + 1
  {
    hide Inv, Closed, Permits;
    JustClosed(w, s, who, id);
    if n <= |SideOf(w, who).e.queueMap[id]| + 1 { WakeTimes(Apply(w, s), who, id, n); }
    forall steps | LetsThrough(Apply(w, s), steps, who, id, n) ensures n <= |SideOf(w, who).e.queueMap[id]| + 1 {
      WaitersAfterClose(w, s, steps, who, id);
    }
  }

  // ---- frames that arrive before registration ----

  lemma InFlightWasSent(r: Side)
    requires SideInv(r) && r.inbox != [] && r.inbox[0].Sock?
    ensures At(r.sent, r.inbox[0].id) != []
  {
    assert Pipe(r, r.inbox[0].id);
  }

  /** The exact race at the acceptor: a data frame is lost for want of a registration if and only if accept has
      sent the reply with that id and not yet registered it. */
  lemma AcceptorDropsEarlyIff(w: World, id: int, p: Bytes)
    requires Inv(w) && w.a.inbox != [] && w.a.inbox[0] == Sock(id, p)
    ensures w.replied == Some(id) <==> ListenAt(w.a).early != w.a.early
    ensures w.replied == Some(id) ==> At(ListenAt(w.a).early, id) == At(w.a.early, id) + [p]
  {
    InFlightWasSent(w.a);
    assert id in w.connected + Opt(w.taken) + Coming(w);
    assert id in Issued(w);
    if w.replied == Some(id) { RepliedIsNew(w); }
    assert |Append(w.a.early, id, p)[id]| == |At(w.a.early, id)| + 1;
  }

  lemma Distinct(s: seq<int>, t: seq<int>, top: int)
    requires Increasing(s + t, top)
    ensures forall x :: x in s ==> x !in t
  {
    forall x | x in s ensures x !in t {
      var i :| 0 <= i < |s| && s[i] == x;
      forall j | 0 <= j < |t| ensures t[j] != x { assert (s + t)[i] < (s + t)[|s| + j]; }
    }
  }

  /** The exact race at the connector: the id is still on its way to the connect that waits for it. */
  lemma ConnectorDropsEarlyIff(w: World, id: int, p: Bytes)
    requires Inv(w) && w.c.inbox != [] && w.c.inbox[0] == Sock(id, p)
    ensures id in Opt(w.taken) + Coming(w) <==> ListenAt(w.c).early != w.c.early
    ensures id in Opt(w.taken) + Coming(w) ==> At(ListenAt(w.c).early, id) == At(w.c.early, id) + [p]
  {
    InFlightWasSent(w.c);
    var rest := Opt(w.taken) + Coming(w);
    assert id in Issued(w);
    assert Issued(w) == w.connected + rest;
    Distinct(w.connected, rest, w.a.e.counter);
    assert |Append(w.c.early, id, p)[id]| == |At(w.c.early, id)| + 1;
  }

  /** The discipline that closes both races: accept replies and registers in one step, and the accepting
      program speaks on a socket only after it has heard something there. */
  ghost predicate Disciplined(w: World, s: Step) {
    && s != AcceptRegister
    && (s.Send? && s.who == Acceptor ==> At(w.a.got, s.id) != [])
  }

  ghost function DisciplinedApply(w: World, s: Step): (w': World)
    requires Inv(w) && Enabled(w, s)
    ensures Inv(w')
  {
    StepInv(w, s);
    if s == AcceptReply then
      StepInv(Apply(w, s), AcceptRegister);
      Apply(Apply(w, s), AcceptRegister)
    else Apply(w, s)
  }

  ghost predicate Quiet(w: World) {
    && Inv(w) && w.replied == None
    && (forall id :: At(w.a.early, id) == [] && At(w.c.early, id) == [])
    && (forall id :: At(w.c.sent, id) != [] ==> At(w.a.got, id) != [])
  }

  lemma QuietCarry(w: World, w': World)
    requires Quiet(w) && Inv(w') && w'.replied == None
    requires w'.a.early == w.a.early && w'.c.early == w.c.early
    requires forall id :: At(w'.c.sent, id) == At(w.c.sent, id) || At(w.a.got, id) != []
    requires forall id :: At(w'.a.got, id) == At(w.a.got, id) || At(w'.a.got, id) != []
    ensures Quiet(w')
  {}

  lemma QuietStep(w: World, s: Step)
    requires Quiet(w) && Enabled(w, s) && Disciplined(w, s)
    ensures Quiet(DisciplinedApply(w, s))
  {
    hide Inv;
    match s {
      case Listen(who) => QuietListen(w, who);
      case Recv(who, id) => QuietRecv(w, who, id);
      case AcceptReply => QuietCarry(w, DisciplinedApply(w, s));
      case _ => QuietOther(w, s);
    }
  }

  lemma CloseHistories(w: World, who: Role, id: int)
    requires Inv(w) && Enabled(w, CloseSock(who, id))
    ensures var w' := Apply(w, CloseSock(who, id));
            && w'.a.early == w.a.early && w'.c.early == w.c.early && w'.a.got == w.a.got
            && w'.c.sent == w.c.sent && w'.replied == w.replied
  {
    InvSides(w);
    hide Inv, SideInv, Consistent;
  }

  lemma OtherHistories(w: World, s: Step)
    requires Inv(w) && Enabled(w, s) && !s.Listen? && !s.Recv? && !s.AcceptReply? && !s.AcceptRegister?
    ensures var w' := Apply(w, s);
            && w'.a.early == w.a.early && w'.c.early == w.c.early && w'.a.got == w.a.got
            && w'.c.sent == (if s.Send? && s.who == Acceptor then Append(w.c.sent, s.id, s.payload) else w.c.sent)
            && w'.replied == w.replied
  {
    InvSides(w);
    hide Inv, SideInv, Consistent;
    if s.CloseSock? { CloseHistories(w, s.who, s.id); }
  }

  lemma QuietOther(w: World, s: Step)
    requires Quiet(w) && Enabled(w, s) && Disciplined(w, s) && !s.Listen? && !s.Recv? && !s.AcceptReply?
    ensures Quiet(DisciplinedApply(w, s))
  {
    hide Inv;
    OtherHistories(w, s);
    QuietCarry(w, DisciplinedApply(w, s));
  }

  lemma QuietRecv(w: World, who: Role, id: int)
    requires Quiet(w) && Enabled(w, Recv(who, id))
    ensures Quiet(DisciplinedApply(w, Recv(who, id)))
  {
    hide Inv;
    InvSides(w);
    hide SideInv;
    forall j { WakePieces(SideOf(w, who), id, j); }
    QuietCarry(w, DisciplinedApply(w, Recv(who, id)));
  }

  lemma ListenHistories(r: Side)
    requires Consistent(r.e) && r.inbox != []
    ensures var r' := ListenAt(r);
            && r'.sent == r.sent && r'.got == r.got && r'.ever == r.ever
            && (r.inbox[0].Sock? || r'.early == r.early)
  {}

  lemma QuietListen(w: World, who: Role)
    requires Quiet(w) && Enabled(w, Listen(who))
    ensures Quiet(DisciplinedApply(w, Listen(who)))
  {
    InvSides(w);
    hide Inv, SideInv, Consistent;
    ListenHistories(SideOf(w, who));
    if SideOf(w, who).inbox[0].Sock? {
      if who == Acceptor { AcceptorDropsEarlyIff(w, w.a.inbox[0].id, w.a.inbox[0].payload); }
      else { HeardAfterRegistration(w); }
    }
    QuietCarry(w, DisciplinedApply(w, Listen(who)));
  }

  lemma HeardAfterRegistration(w: World)
    requires Quiet(w) && w.c.inbox != [] && w.c.inbox[0].Sock?
    ensures ListenAt(w.c).early == w.c.early
  {
    var id := w.c.inbox[0].id;
    InFlightWasSent(w.c);
    assert Pipe(w.a, id);
    assert id in w.c.ever;
  }

  ghost predicate DisciplinedRun(w: World, steps: seq<Step>)
    requires Inv(w)
    decreases |steps|
  {
    steps != [] ==> Enabled(w, steps[0]) && Disciplined(w, steps[0])
                    && DisciplinedRun(DisciplinedApply(w, steps[0]), steps[1..])
  }

  ghost function DisciplinedEnd(w: World, steps: seq<Step>): (w': World)
    requires Inv(w) && DisciplinedRun(w, steps)
    ensures Inv(w')
    decreases |steps|
  {
    if steps == [] then w else DisciplinedEnd(DisciplinedApply(w, steps[0]), steps[1..])
  }

  lemma QuietPipe(w: World, who: Role, id: int)
    requires Quiet(w)
    ensures var r := SideOf(w, who);
            At(r.early, id) == [] && At(r.sent, id) == At(r.got, id) + Kept(r, id) + InFlight(r.inbox, id)
  {
    assert Pipe(SideOf(w, who), id);
  }

  lemma {:induction false} DisciplinedRunIsQuiet(w: World, steps: seq<Step>)
    requires Quiet(w) && Inv(w) && DisciplinedRun(w, steps)
    ensures Quiet(DisciplinedEnd(w, steps))
    decreases |steps|
  {
    hide Quiet, Inv;
    if steps != [] {
      QuietStep(w, steps[0]);
      DisciplinedRunIsQuiet(DisciplinedApply(w, steps[0]), steps[1..]);
    }
  }

  lemma StartIsQuiet(lang: Lang)
    ensures Quiet(Init(lang))
  {
    InitInv(lang);
  }

  ghost predicate StartsDisciplined(lang: Lang, steps: seq<Step>) {
    InitInv(lang);
    DisciplinedRun(Init(lang), steps)
  }

  ghost function DisciplinedFromStart(lang: Lang, steps: seq<Step>): (w: World)
    requires StartsDisciplined(lang, steps)
    ensures Inv(w)
  {
    InitInv(lang);
    DisciplinedEnd(Init(lang), steps)
  }

  ghost predicate DisciplinedReachable(w: World) {
    exists lang, steps :: StartsDisciplined(lang, steps) && w == DisciplinedFromStart(lang, steps)
  }

  lemma DisciplinedIsQuiet(w: World)
    requires DisciplinedReachable(w)
    ensures Quiet(w)
  {
    hide Inv, Quiet;
    var lang, steps :| StartsDisciplined(lang, steps) && w == DisciplinedFromStart(lang, steps);
    StartIsQuiet(lang);
    InitInv(lang);
    DisciplinedRunIsQuiet(Init(lang), steps);
  }

  /** Under the discipline no frame is ever dropped for want of a registration, so that in every reachable
      state, for every id and in both directions, the messages received are a prefix of those sent. */
  lemma DisciplinedPipesLoseNothing(w: World, who: Role, id: int)
    requires DisciplinedReachable(w)
    ensures var r := SideOf(w, who);
            && At(r.early, id) == [] && At(r.got, id) <= At(r.sent, id)
            && At(r.sent, id) == At(r.got, id) + Kept(r, id) + InFlight(r.inbox, id)
  {
    hide Inv, Quiet, DisciplinedReachable;
    DisciplinedIsQuiet(w);
    QuietPipe(w, who, id);
    var r := SideOf(w, who);
    assert At(r.got, id) + Kept(r, id) + InFlight(r.inbox, id) == At(r.got, id) + (Kept(r, id) + InFlight(r.inbox, id));
  }
}
