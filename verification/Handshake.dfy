/** connect always completes, whatever traffic the other sockets carry: ranking arguments over the handshake
    steps of both endpoints. */
module HandshakeProgress {
  import opened Bytes
  import opened Codec
  import opened Endpoints
  import opened Multiplexer
  import opened Guarantees
  import opened EndlessRuns

  /** The steps of the threads inside connect, accept and the two listeners. */
  predicate IsHandshake(s: Step) { !(s.Call? || s.Send? || s.Recv? || s.CloseSock?) }

  function Weight(f: Frame): nat {
    if f.Create? then 8 else if f.Accepted? then 4 else 1
  }

  function Load(ch: seq<Frame>): nat {
    if ch == [] then 0 else Weight(ch[0]) + Load(ch[1..])
  }

  lemma {:induction false} LoadAppend(ch: seq<Frame>, f: Frame)
    ensures Load(ch + [f]) == Load(ch) + Weight(f)
  {
    if ch != [] {
      assert (ch + [f])[1..] == ch[1..] + [f];
      LoadAppend(ch[1..], f);
    }
  }

  /** How far the handshakes under way, and the frames ahead of them, are from the end. */
  function Rank(w: World): nat {
    10 * w.want + Load(w.a.inbox) + 7 * w.a.e.acceptSem + 6 * w.woken + |Opt(w.replied)|
    + Load(w.c.inbox) + 3 * |w.c.e.connectQueue| + 2 * |Opt(w.taken)|
  }

  lemma ListenRank(r: Side)
    requires Consistent(r.e) && r.inbox != []
    ensures var r', f := ListenAt(r), r.inbox[0];
            && Load(r'.inbox) == Load(r.inbox) - Weight(f)
            && r'.e.acceptSem == r.e.acceptSem + (if f.Create? then 1 else 0)
            && |r'.e.connectQueue| == |r.e.connectQueue| + (if f.Accepted? then 1 else 0)
  {}

  lemma HandshakeDescends(w: World, s: Step)
    requires Inv(w) && Enabled(w, s) && IsHandshake(s)
    ensures Rank(Apply(w, s)) < Rank(w)
  {
    hide Handshake, Origin, Roles, Pipe;
    match s {
      case BeginConnect => LoadAppend(w.a.inbox, Create);
      case AcceptReply => LoadAppend(w.c.inbox, Accepted(NextId(w.a.e)));
      case Listen(who) => ListenRank(SideOf(w, who));
      case _ =>
    }
  }

  ghost predicate Pending(w: World) { w.want > 0 || w.sent > 0 || w.taken.Some? }

  /** How far the foremost of the connects under way has come; fewer stages are left the lower the number. */
  function Stage(w: World): nat {
    if w.taken.Some? then 1
    else if w.c.e.connectQueue != [] then 2
    else if AcceptedIds(w.c.inbox) != [] then 3
    else if w.woken > 0 then (if w.replied.None? then 4 else 5)
    else if w.a.e.acceptSem > 0 then 6
    else if Creates(w.a.inbox) > 0 then 7
    else 8
  }

  /** No deadlock: while any connect is under way, holding id_lock or not, this handshake step is enabled. */
  ghost function NextStep(w: World): (s: Step)
    requires Inv(w) && Pending(w)
    ensures IsHandshake(s) && Enabled(w, s)
  {
    match Stage(w)
    case 1 => ConnectRegister
    case 2 => ConnectWake
    case 3 => Listen(Connector)
    case 4 => AcceptReply
    case 5 => AcceptRegister
    case 6 => AcceptWake
    case 7 => Listen(Acceptor)
    case _ => BeginConnect
  }

  /** Calls of connect made so far. */
  ghost function Calls(w: World): nat { w.want + w.sent + |Opt(w.taken)| + |w.connected| }

  lemma CallsKept(w: World, s: Step)
    requires Inv(w) && Enabled(w, s)
    ensures Calls(Apply(w, s)) == Calls(w) + if s == Call then 1 else 0
  {
    hide Inv;
  }

  ghost predicate AllHandshake(steps: seq<Step>) { forall i :: 0 <= i < |steps| ==> IsHandshake(steps[i]) }

  lemma RunCons(w: World, s: Step, rest: seq<Step>)
    requires Inv(w) && Enabled(w, s) && Inv(Apply(w, s)) && CanRun(Apply(w, s), rest)
    ensures CanRun(w, [s] + rest) && Run(w, [s] + rest) == Run(Apply(w, s), rest)
  {
    hide Inv;
    assert ([s] + rest)[1..] == rest;
  }

  ghost predicate Stuck(w: World) { forall s :: IsHandshake(s) ==> !Enabled(w, s) }

  lemma StuckIsDone(w: World)
    requires Inv(w)
    ensures Stuck(w) ==> !Pending(w) && |w.connected| == Calls(w)
    ensures w.connected <= Issued(w)
  {
    if Pending(w) { var s := NextStep(w); }
    assert Issued(w) == w.connected + (Opt(w.taken) + Coming(w));
  }

  lemma {:induction false} HandshakeRun(w: World, steps: seq<Step>)
    requires Inv(w) && CanRun(w, steps) && AllHandshake(steps)
    ensures |steps| <= Rank(w) && Calls(Run(w, steps)) == Calls(w)
    decreases |steps|
  {
    hide Inv, Rank, Calls;
    if steps != [] {
      StepInv(w, steps[0]);
      HandshakeDescends(w, steps[0]);
      CallsKept(w, steps[0]);
      HandshakeRun(Apply(w, steps[0]), steps[1..]);
    }
  }

  /** While no other steps are taken the handshake takes at most Rank steps, in any order; and once none is
      enabled, every call of connect has returned, with an id of its own that accept issued. */
  lemma HandshakeAloneIsBounded(w: World, steps: seq<Step>)
    requires Inv(w) && CanRun(w, steps) && AllHandshake(steps)
    ensures |steps| <= Rank(w)
    ensures var w' := Run(w, steps);
            && (Stuck(w') ==> !Pending(w') && |w'.connected| == Calls(w))
            && w'.connected <= Issued(w')
  {
    hide Inv;
    HandshakeRun(w, steps);
    StuckIsDone(Run(w, steps));
  }

  ghost predicate Completes(w: World, steps: seq<Step>)
    requires Inv(w)
  {
    CanRun(w, steps) && AllHandshake(steps) && !Pending(Run(w, steps))
  }

  lemma CompletesCons(w: World, s: Step, rest: seq<Step>)
    requires Inv(w) && Enabled(w, s) && IsHandshake(s) && Inv(Apply(w, s)) && Completes(Apply(w, s), rest)
    ensures Completes(w, [s] + rest)
  {
    hide Inv;
    RunCons(w, s, rest);
  }

  /** And such a schedule exists from every state. */
  lemma {:induction false} SomeScheduleCompletes(w: World)
    requires Inv(w)
    ensures exists steps :: Completes(w, steps)
    decreases Rank(w)
  {
    hide Inv, Rank;
    if !Pending(w) {
      assert Completes(w, []);
    } else {
      var s := NextStep(w);
      StepInv(w, s);
      HandshakeDescends(w, s);
      SomeScheduleCompletes(Apply(w, s));
      OneStepMore(w, s);
    }
  }

  lemma OneStepMore(w: World, s: Step)
    requires Inv(w) && Enabled(w, s) && IsHandshake(s) && Inv(Apply(w, s))
    requires exists rest :: Completes(Apply(w, s), rest)
    ensures exists steps :: Completes(w, steps)
  {
    hide Inv, Completes;
    var rest :| Completes(Apply(w, s), rest);
    CompletesCons(w, s, rest);
  }

  // ---- among any traffic ----

  predicate IsToken(f: Frame) { f.Create? || f.Accepted? }

  function UntilToken(ch: seq<Frame>): nat {
    if ch == [] || IsToken(ch[0]) then 0 else 1 + UntilToken(ch[1..])
  }

  /** Frames that a listener must read before the foremost token. */
  function Ahead(w: World): nat {
    if Stage(w) == 3 then UntilToken(w.c.inbox) else if Stage(w) == 7 then UntilToken(w.a.inbox) else 0
  }

  lemma {:induction false} UntilAppend(ch: seq<Frame>, f: Frame)
    ensures Creates(ch) > 0 || AcceptedIds(ch) != [] ==> UntilToken(ch + [f]) == UntilToken(ch)
  {
    if ch != [] {
      assert (ch + [f])[1..] == ch[1..] + [f];
      if !IsToken(ch[0]) { UntilAppend(ch[1..], f); }
    }
  }

  /** From w to w' a connect has returned. */
  predicate Returned(w: World, w': World) { |w.connected| < |w'.connected| }

  /** The foremost connect is a step nearer its end. */
  ghost predicate Nearer(w: World, w': World) {
    |w.connected| == |w'.connected| && (Stage(w') < Stage(w) || (Stage(w') == Stage(w) && Ahead(w') < Ahead(w)))
  }

  ghost predicate AsFar(w: World, w': World) {
    |w.connected| == |w'.connected| && Stage(w') == Stage(w) && Ahead(w') == Ahead(w)
  }

  ghost predicate Onward(w: World, s: Step, w': World)
    requires Inv(w) && Pending(w)
  {
    Returned(w, w') || Nearer(w, w') || (AsFar(w, w') && s != NextStep(w))
  }

  /** What Stage and Ahead look at, at the two ends. */
  ghost predicate SameTokens(r: Side, r': Side) {
    && r'.e.connectQueue == r.e.connectQueue && r'.e.acceptSem == r.e.acceptSem
    && Creates(r'.inbox) == Creates(r.inbox) && AcceptedIds(r'.inbox) == AcceptedIds(r.inbox)
    && (Creates(r.inbox) > 0 || AcceptedIds(r.inbox) != [] ==> UntilToken(r'.inbox) == UntilToken(r.inbox))
  }

  lemma SameTokensAsFar(w: World, w': World)
    requires w' == w.(c := w'.c, a := w'.a) && SameTokens(w.c, w'.c) && SameTokens(w.a, w'.a)
    ensures AsFar(w, w')
  {
    hide UntilToken, Creates, AcceptedIds;
  }

  lemma DeliverTokens(r: Side, f: Frame)
    requires !IsToken(f)
    ensures SameTokens(r, Deliver(r, f))
  {
    HandshakeAppend(r.inbox, f);
    UntilAppend(r.inbox, f);
    hide UntilToken, Creates, AcceptedIds;
  }

  lemma SendOnward(w: World, who: Role, id: int, p: Bytes)
    requires Inv(w) && Enabled(w, Send(who, id, p)) && Pending(w)
    ensures Onward(w, Send(who, id, p), Apply(w, Send(who, id, p)))
  {
    DeliverTokens(if who == Connector then w.a else w.c, Sock(id, p));
    hide Inv, SameTokens, AsFar;
    SameTokensItself(w);
    SameTokensAsFar(w, Apply(w, Send(who, id, p)));
  }

  lemma SameTokensItself(w: World)
    ensures SameTokens(w.c, w.c) && SameTokens(w.a, w.a)
  {}

  lemma CloseTokens(r: Side, id: int)
    requires Consistent(r.e) && id in r.e.semMap
    ensures SameTokens(r, CloseAt(r, id))
  {
    hide UntilToken, Creates, AcceptedIds;
  }

  lemma CloseOnward(w: World, who: Role, id: int)
    requires Inv(w) && Enabled(w, CloseSock(who, id)) && Pending(w)
    ensures Onward(w, CloseSock(who, id), Apply(w, CloseSock(who, id)))
  {
    InvSides(w);
    DeliverTokens(if who == Connector then w.a else w.c, Close(id));
    CloseTokens(SideOf(w, who), id);
    hide Inv, SameTokens, AsFar, CloseAt, Deliver;
    SameTokensAsFar(w, Apply(w, CloseSock(who, id)));
  }

  lemma WakeTokens(r: Side, id: int)
    requires SideInv(r) && CanWake(r, id)
    ensures SameTokens(r, WakeAt(r, id))
  {
    hide UntilToken, Creates, AcceptedIds;
    WakeSafe(r, id);
  }

  lemma RecvOnward(w: World, who: Role, id: int)
    requires Inv(w) && Enabled(w, Recv(who, id)) && Pending(w)
    ensures Onward(w, Recv(who, id), Apply(w, Recv(who, id)))
  {
    InvSides(w);
    WakeTokens(SideOf(w, who), id);
    SameTokensItself(w);
    hide Inv, SameTokens, AsFar, WakeAt, SideInv;
    SameTokensAsFar(w, Apply(w, Recv(who, id)));
  }

  lemma ListenTakesHead(r: Side)
    requires Consistent(r.e) && r.inbox != []
    ensures var r', f := ListenAt(r), r.inbox[0];
            && r'.e.acceptSem == r.e.acceptSem + (if f.Create? then 1 else 0)
            && r'.e.connectQueue == r.e.connectQueue + (if f.Accepted? then [f.id] else [])
            && Creates(r.inbox) == Creates(r'.inbox) + (if f.Create? then 1 else 0)
            && AcceptedIds(r.inbox) == (if f.Accepted? then [f.id] else []) + AcceptedIds(r'.inbox)
            && UntilToken(r.inbox) == (if IsToken(f) then 0 else 1 + UntilToken(r'.inbox))
  {}

  lemma ListenOnward(w: World, who: Role)
    requires Inv(w) && Enabled(w, Listen(who)) && Pending(w)
    ensures Onward(w, Listen(who), Apply(w, Listen(who)))
  {
    InvSides(w);
    assert Roles(w);
    assert SideOf(w, who).inbox[0] in SideOf(w, who).inbox;
    hide Inv, Consistent, SideInv, ListenAt, UntilToken, Creates, AcceptedIds, Roles;
    ListenTakesHead(SideOf(w, who));
    var w' := Apply(w, Listen(who));
    if who == Connector { ConnectorOnward(w, w'); } else { AcceptorOnward(w, w'); }
  }

  lemma ConnectorOnward(w: World, w': World)
    requires Inv(w) && Pending(w) && w' == w.(c := w'.c) && w.c.inbox != [] && !w.c.inbox[0].Create?
    requires var f := w.c.inbox[0];
             && w'.c.e.connectQueue == w.c.e.connectQueue + (if f.Accepted? then [f.id] else [])
             && AcceptedIds(w.c.inbox) == (if f.Accepted? then [f.id] else []) + AcceptedIds(w'.c.inbox)
             && UntilToken(w.c.inbox) == (if IsToken(f) then 0 else 1 + UntilToken(w'.c.inbox))
    ensures Onward(w, Listen(Connector), w')
  {
    hide Inv, UntilToken, Creates, AcceptedIds;
  }

  lemma AcceptorOnward(w: World, w': World)
    requires Inv(w) && Pending(w) && w' == w.(a := w'.a) && w.a.inbox != [] && !w.a.inbox[0].Accepted?
    requires var f := w.a.inbox[0];
             && w'.a.e.acceptSem == w.a.e.acceptSem + (if f.Create? then 1 else 0)
             && Creates(w.a.inbox) == Creates(w'.a.inbox) + (if f.Create? then 1 else 0)
             && UntilToken(w.a.inbox) == (if IsToken(f) then 0 else 1 + UntilToken(w'.a.inbox))
    ensures Onward(w, Listen(Acceptor), w')
  {
    hide Inv, UntilToken, Creates, AcceptedIds;
  }

  lemma ThreadOnward(w: World, s: Step)
    requires Inv(w) && Enabled(w, s) && Pending(w)
    requires s in {Call, BeginConnect, ConnectWake, ConnectRegister, AcceptWake, AcceptReply, AcceptRegister}
    ensures Onward(w, s, Apply(w, s))
  {
    hide SideInv, Roles, Origin, UntilToken;
    match s {
      case BeginConnect => HandshakeAppend(w.a.inbox, Create); UntilAppend(w.a.inbox, Create);
      case AcceptReply =>
        HandshakeAppend(w.c.inbox, Accepted(NextId(w.a.e)));
        UntilAppend(w.c.inbox, Accepted(NextId(w.a.e)));
      case _ =>
    }
  }

  /** No step of any thread sets the foremost connect back, neither traffic on other sockets nor another call of
      connect; and the step that it waits for brings it on. */
  lemma NoStepSetsBack(w: World, s: Step)
    requires Inv(w) && Enabled(w, s) && Pending(w)
    ensures Onward(w, s, Apply(w, s))
  {
    match s {
      case Listen(who) => ListenOnward(w, who);
      case Recv(who, id) => RecvOnward(w, who, id);
      case CloseSock(who, id) => CloseOnward(w, who, id);
      case Send(who, id, p) => SendOnward(w, who, id, p);
      case _ => ThreadOnward(w, s);
    }
  }

  /** No step of connect, accept or a listener stays enabled for ever without being taken. */
  ghost predicate Fair(at: nat -> World, does: nat -> Option<Step>) {
    forall h: Step, i: nat :: IsHandshake(h) ==> Served(at, does, h, i)
  }

  lemma PendingIff(w: World)
    ensures Pending(w) <==> |w.connected| < Calls(w)
  {}

  lemma OneMoment(w: World, s: Option<Step>, w': World)
    requires Inv(w) && Moment(w, s, w')
    ensures Calls(w) <= Calls(w')
    ensures Pending(w) ==> Returned(w, w') || Nearer(w, w') || (AsFar(w, w') && (s.None? || s.value != NextStep(w)))
  {
    if s.Some? {
      hide Inv, Returned, Nearer, AsFar, Calls;
      CallsKept(w, s.value);
      if Pending(w) { NoStepSetsBack(w, s.value); }
    } else {
      hide Inv, Calls, Stage, Ahead;
    }
  }

  /** From moment i on the foremost connect is at every moment where it was, nearer its end, or has returned. */
  lemma {:induction false} NoMomentSetsBack(at: nat -> World, does: nat -> Option<Step>, i: nat, j: nat)
    requires IsRun(at, does) && i <= j && Inv(at(i)) && Pending(at(i))
    ensures Calls(at(i)) <= Calls(at(j))
    ensures (exists k: nat :: i < k <= j && Better(at(i), at(k))) || AsFar(at(i), at(j))
    decreases j - i
  {
    hide Inv, Calls, Stage, Ahead, IsRun, Moment;
    if i < j {
      NoMomentSetsBack(at, does, i, j - 1);
      RunInv(at, does, j - 1);
      OneMoment(at(j - 1), does(j - 1), at(j));
      if AsFar(at(i), at(j - 1)) && Calls(at(i)) <= Calls(at(j - 1)) {
        PendingIff(at(i));
        PendingIff(at(j - 1));
        if !AsFar(at(i), at(j)) { assert Better(at(i), at(j)); }
      }
    }
  }

  ghost predicate Better(w: World, w': World) { Returned(w, w') || Nearer(w, w') }

  lemma SomethingHappens(at: nat -> World, does: nat -> Option<Step>, i: nat)
    requires IsRun(at, does) && Fair(at, does) && Inv(at(i)) && Pending(at(i))
    ensures exists k: nat :: i < k && Better(at(i), at(k))
  {
    hide Inv, Calls, Stage, Ahead, IsRun, Moment;
    var h := NextStep(at(i));
    assert Served(at, does, h, i);
    var j: nat :| i <= j && TakenOrNot(at(j), does(j), h);
    NoMomentSetsBack(at, does, i, j);
    if AsFar(at(i), at(j)) {
      PendingIff(at(i));
      PendingIff(at(j));
      RunInv(at, does, j);
      NextStepByStage(at(i), at(j));
      OneMoment(at(j), does(j), at(j + 1));
      assert Better(at(i), at(j + 1));
    }
  }

  lemma NextStepByStage(w: World, w': World)
    requires Inv(w) && Inv(w') && Pending(w) && Pending(w') && Stage(w) == Stage(w')
    ensures NextStep(w') == NextStep(w)
  {
    hide Inv, Stage;
  }

  lemma {:induction false} SomeConnectReturns(at: nat -> World, does: nat -> Option<Step>, i: nat)
    requires IsRun(at, does) && Fair(at, does) && Inv(at(i)) && Pending(at(i))
    ensures exists k: nat :: i < k && Returned(at(i), at(k)) && Calls(at(i)) <= Calls(at(k))
    decreases Stage(at(i)), Ahead(at(i))
  {
    hide Inv, Calls, Stage, Ahead, IsRun, Moment, Fair;
    SomethingHappens(at, does, i);
    var k: nat :| i < k && Better(at(i), at(k));
    NoMomentSetsBack(at, does, i, k);
    RunInv(at, does, k);
    if Nearer(at(i), at(k)) {
      PendingIff(at(i));
      PendingIff(at(k));
      SomeConnectReturns(at, does, k);
    }
  }

  lemma {:induction false} ReturnsReach(at: nat -> World, does: nat -> Option<Step>, i: nat, calls: nat)
    requires IsRun(at, does) && Fair(at, does) && Inv(at(i)) && calls <= Calls(at(i))
    ensures exists k: nat :: i <= k && calls <= |at(k).connected|
    decreases calls - |at(i).connected|
  {
    hide Inv, Calls, IsRun, Moment, Fair;
    if |at(i).connected| < calls {
      PendingIff(at(i));
      SomeConnectReturns(at, does, i);
      var k: nat :| i < k && Returned(at(i), at(k)) && Calls(at(i)) <= Calls(at(k));
      RunInv(at, does, k);
      ReturnsReach(at, does, k, calls);
    }
  }

  /** In every fair run, with any traffic on other sockets and any further calls, as many connects return as have
      been called at any moment, each with an id of its own that accept issued. */
  lemma EveryConnectCompletes(at: nat -> World, does: nat -> Option<Step>, i: nat)
    requires IsRun(at, does) && Fair(at, does)
    ensures exists k: nat :: i <= k && Calls(at(i)) <= |at(k).connected| && at(k).connected <= Issued(at(k))
  {
    hide Inv, Calls, IsRun, Moment, Fair;
    RunInv(at, does, i);
    ReturnsReach(at, does, i, Calls(at(i)));
    var k: nat :| i <= k && Calls(at(i)) <= |at(k).connected|;
    RunInv(at, does, k);
    StuckIsDone(at(k));
  }
}
