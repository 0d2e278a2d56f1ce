/** The discipline of Guarantees is needed: two runs of the model of accept as it stands, each of which loses a
    message. And one state in which a close leaves a receiver waiting for ever. */
module EarlyDrops {
  import opened Bytes
  import opened Codec
  import opened Endpoints
  import opened Multiplexer
  import opened Guarantees

  lemma Go(w: World, s: Step, w': World)
    requires Reachable(w) && Enabled(w, s) && Apply(w, s) == w'
    ensures Reachable(w')
  {
    hide Inv;
    ReachableStep(w, s);
  }

  const W0: World := Init(Cpp)
  const W1: World := W0.(want := 1)
  const W2: World := W0.(sent := 1, a := START.(inbox := [Create]))
  const W3: World := W0.(sent := 1, a := START.(e := INIT.(acceptSem := 1)))
  const W4: World := W0.(sent := 1, woken := 1)
  /** accept has replied with id 1 but not registered it. */
  const W5: World := W0.(sent := 1, replied := Some(1), a := START.(e := INIT.(counter := 1)),
                         c := START.(inbox := [Accepted(1)]))

  lemma ReachW1()
    ensures Reachable(W1)
  {
    hide Inv;
    InitInv(Cpp);
    assert StartsRun(Cpp, []) && W0 == RunFromStart(Cpp, []);
    Go(W0, Call, W1);
  }

  lemma ConnectBegins()
    requires Inv(W1)
    ensures Enabled(W1, BeginConnect) && Apply(W1, BeginConnect) == W2
  {
    hide Inv;
    assert Deliver(W1.a, Create) == W2.a by { assert [] + [Create] == [Create]; }
  }

  lemma ReachW2()
    ensures Reachable(W2)
  {
    hide Inv, Apply, Enabled;
    ReachW1();
    ConnectBegins();
    Go(W1, BeginConnect, W2);
  }

  lemma ReachW3()
    ensures Reachable(W3)
  {
    hide Inv;
    ReachW2();
    assert W2.a.inbox[1..] == [];
    Go(W2, Listen(Acceptor), W3);
  }

  lemma AcceptWakes()
    requires Inv(W3)
    ensures Enabled(W3, AcceptWake) && Apply(W3, AcceptWake) == W4
  {
    hide Inv;
  }

  lemma AcceptReplies()
    requires Inv(W4)
    ensures Enabled(W4, AcceptReply) && Apply(W4, AcceptReply) == W5
  {
    hide Inv;
    assert NextId(W4.a.e) == 1;
    assert Deliver(W4.c, Accepted(1)) == W5.c by { assert [] + [Accepted(1)] == [Accepted(1)]; }
  }

  lemma ReachW5()
    ensures Reachable(W5)
  {
    hide Inv, Apply, Enabled;
    ReachW3();
    AcceptWakes();
    Go(W3, AcceptWake, W4);
    AcceptReplies();
    Go(W4, AcceptReply, W5);
  }

  const OPEN: Endpoint := INIT.(sems := [Semaphore(1, 0)], semMap := map[1 := 0], queueMap := map[1 := []],
                                statusMap := map[1 := 1])

  // the connecting program is first

  const C6: World := W5.(c := START.(e := INIT.(connectQueue := [1], connectSem := 1)))
  const C7: World := W5.(sent := 0, taken := Some(1), c := START)
  const C8: World := W5.(sent := 0, connected := [1], c := START.(e := OPEN, ever := map[1 := 0]))

  function C9(p: Bytes): World { C8.(a := C8.a.(inbox := [Sock(1, p)], sent := map[1 := [p]])) }

  lemma ReachC6()
    ensures Reachable(C6)
  {
    hide Inv;
    ReachW5();
    assert W5.c.inbox[1..] == [];
    Go(W5, Listen(Connector), C6);
  }

  lemma ConnectWakes()
    requires Inv(C6)
    ensures Enabled(C6, ConnectWake) && Apply(C6, ConnectWake) == C7
  {
    hide Inv;
    assert C6.c.e.connectQueue[1..] == [];
  }

  lemma ReachC7()
    ensures Reachable(C7)
  {
    hide Inv, Apply, Enabled;
    ReachC6();
    ConnectWakes();
    Go(C6, ConnectWake, C7);
  }

  lemma Opened()
    ensures Register(INIT, 1) == OPEN
    ensures forall x: int :: [] + [x] == [x]
  {}

  lemma FirstMessage(p: Bytes)
    ensures Append(map[], 1, p) == map[1 := [p]]
    ensures [] + [Sock(1, p)] == [Sock(1, p)] && [Accepted(1)] + [Sock(1, p)] == [Accepted(1), Sock(1, p)]
  {
    assert At(map[], 1) + [p] == [p];
  }

  lemma ReachC8()
    ensures Reachable(C8)
  {
    hide Inv;
    ReachC7();
    Opened();
    assert RegisterAt(START, 1) == C8.c;
    Go(C7, ConnectRegister, C8);
  }

  lemma ReachC9(p: Bytes)
    ensures Reachable(C9(p))
  {
    hide Inv;
    ReachC8();
    FirstMessage(p);
    assert Deliver(C8.a, Sock(1, p)) == C9(p).a;
    Go(C8, Send(Connector, 1, p), C9(p));
  }

  /** The connecting program registers and sends before accept has registered: its first message is dropped. */
  lemma SplitAcceptLosesFrame(p: Bytes)
    ensures exists w :: Reachable(w) && At(w.a.early, 1) == [p]
  {
    hide Inv;
    ReachC9(p);
    ReachableStep(C9(p), Listen(Acceptor));
    AcceptorDropsEarlyIff(C9(p), 1, p);
    assert At(Apply(C9(p), Listen(Acceptor)).a.early, 1) == [p];
  }

  // the accepting program is first

  const A6: World := W5.(replied := None, accepted := [1],
                         a := START.(e := OPEN.(counter := 1), ever := map[1 := 0]))

  function A7(p: Bytes): World { A6.(c := A6.c.(inbox := [Accepted(1), Sock(1, p)], sent := map[1 := [p]])) }

  function A8(p: Bytes): World {
    A7(p).(c := A7(p).c.(e := INIT.(connectQueue := [1], connectSem := 1), inbox := [Sock(1, p)]))
  }

  lemma ReachA6()
    ensures Reachable(A6)
  {
    hide Inv;
    ReachW5();
    Opened();
    assert Register(INIT.(counter := 1), 1) == OPEN.(counter := 1);
    Go(W5, AcceptRegister, A6);
  }

  lemma ReachA7(p: Bytes)
    ensures Reachable(A7(p))
  {
    hide Inv;
    ReachA6();
    FirstMessage(p);
    assert Deliver(A6.c, Sock(1, p)) == A7(p).c;
    Go(A6, Send(Acceptor, 1, p), A7(p));
  }

  lemma ReachA8(p: Bytes)
    ensures Reachable(A8(p))
  {
    hide Inv;
    ReachA7(p);
    assert A7(p).c.inbox[1..] == [Sock(1, p)];
    Go(A7(p), Listen(Connector), A8(p));
  }

  /** The accepting program speaks before connect has registered: its message is dropped. */
  lemma SpeakingFirstLosesFrame(p: Bytes)
    ensures exists w :: Reachable(w) && At(w.c.early, 1) == [p]
  {
    hide Inv;
    ReachA8(p);
    assert Coming(A8(p))[0] == 1;
    ReachableStep(A8(p), Listen(Connector));
    ConnectorDropsEarlyIff(A8(p), 1, p);
    assert At(Apply(A8(p), Listen(Connector)).c.early, 1) == [p];
  }

  // two receivers on one socket

  /** However the run goes on after step s, n receivers of the socket never all get through. */
  ghost predicate NeverAll(w: World, s: Step, who: Role, id: int, n: nat)
    requires Inv(w) && Enabled(w, s)
  {
    StepInv(w, s);
    !exists steps :: LetsThrough(Apply(w, s), steps, who, id, n)
  }

  /** A socket without messages is closed while two receivers wait on it: in no run do both get through. The programs
      of the repository have one receiver at a time for each socket. */
  lemma SecondReceiverNeverWakes()
    ensures exists w ::
      Reachable(w) && Enabled(w, CloseSock(Acceptor, 1)) && NeverAll(w, CloseSock(Acceptor, 1), Acceptor, 1, 2)
  {
    hide Inv, Apply;
    ReachA6();
    AllWaitersWakeIff(A6, CloseSock(Acceptor, 1), Acceptor, 1, 2);
    assert NeverAll(A6, CloseSock(Acceptor, 1), Acceptor, 1, 2);
  }
}
