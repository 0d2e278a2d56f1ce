/** The other half of FifoPipes: what is sent on a socket that stays open is eventually received, whatever the other
    threads do, as long as the listener runs and the receiving program goes on calling recv. */
module Delivery {
  import opened Bytes
  import opened Codec
  import opened Endpoints
  import opened Multiplexer
  import opened Guarantees
  import opened EndlessRuns

  function Queue(r: Side, id: int): Messages { if id in r.e.queueMap then r.e.queueMap[id] else [] }

  /** Messages of the socket that are accounted for: dropped before registration, or handed out. */
  function Handled(r: Side, id: int): nat { |At(r.early, id)| + |At(r.got, id)| }

  /** Frames that the listener must read before it comes to a message of the socket. */
  function Until(ch: seq<Frame>, id: int): nat {
    if ch == [] || (ch[0].Sock? && ch[0].id == id) then 0 else 1 + Until(ch[1..], id)
  }

  ghost predicate Lacks(r: Side, id: int) { Handled(r, id) < |At(r.sent, id)| }

  /** Where the oldest message that is lacking waits. */
  ghost predicate Waits(r: Side, id: int) { Queue(r, id) != [] || InFlight(r.inbox, id) != [] }

  lemma LackingWaits(r: Side, id: int)
    requires SideInv(r) && id in r.e.semMap
    ensures Lacks(r, id) ==> Waits(r, id)
    ensures At(r.early, id) + At(r.got, id) <= At(r.sent, id)
  {
    assert Pipe(r, id);
    assert At(r.sent, id) == At(r.early, id) + At(r.got, id) + (Kept(r, id) + InFlight(r.inbox, id));
  }

  /** It has been handed out. */
  ghost predicate More(r: Side, r': Side, id: int) { Handled(r, id) < Handled(r', id) }

  /** It is nearer the program. */
  ghost predicate Closer(r: Side, r': Side, id: int) {
    && Handled(r', id) == Handled(r, id) && Queue(r, id) == []
    && (Queue(r', id) != [] || Until(r'.inbox, id) < Until(r.inbox, id))
  }

  ghost predicate Same(r: Side, r': Side, id: int) {
    && Handled(r', id) == Handled(r, id) && (Queue(r', id) == [] <==> Queue(r, id) == [])
    && (Queue(r, id) == [] ==> Until(r'.inbox, id) == Until(r.inbox, id))
  }

  /** What every step keeps: nothing is unsent, and nothing more is dropped early. */
  ghost predicate Keeps(r: Side, r': Side, id: int) {
    At(r.sent, id) <= At(r'.sent, id) && At(r'.early, id) == At(r.early, id)
  }

  // ---- at the receiving side ----

  lemma {:induction false} UntilAppend(ch: seq<Frame>, f: Frame, id: int)
    ensures InFlight(ch, id) != [] ==> Until(ch + [f], id) == Until(ch, id)
    decreases |ch|
  {
    if ch != [] {
      assert (ch + [f])[1..] == ch[1..] + [f];
      UntilAppend(ch[1..], f, id);
    }
  }

  lemma DeliverWaits(r: Side, f: Frame, id: int)
    ensures Keeps(r, Deliver(r, f), id) && (Waits(r, id) ==> Same(r, Deliver(r, f), id))
  {
    UntilAppend(r.inbox, f, id);
    hide InFlight, Until;
  }

  lemma ListenMoves(r: Side, id: int)
    requires Consistent(r.e) && Handles(r) && r.inbox != [] && id in r.e.semMap && id in ListenAt(r).e.semMap
    ensures Keeps(r, ListenAt(r), id)
    ensures Waits(r, id) ==> if Queue(r, id) == [] then Closer(r, ListenAt(r), id) else Same(r, ListenAt(r), id)
  {
    ListenHistories(r);
  }

  lemma WakeMoves(r: Side, j: int, id: int)
    requires SideInv(r) && CanWake(r, j) && id in r.e.semMap
    ensures Keeps(r, WakeAt(r, j), id)
    ensures if j == id then More(r, WakeAt(r, j), id) else Same(r, WakeAt(r, j), id)
  {
    WakeSafe(r, j);
    hide Pipe;
  }

  lemma CloseMoves(r: Side, j: int, id: int)
    requires Consistent(r.e) && j in r.e.semMap && j != id
    ensures Keeps(r, CloseAt(r, j), id) && Same(r, CloseAt(r, j), id)
  {}

  lemma RegisterMoves(r: Side, j: int, id: int)
    requires j != id
    ensures Keeps(r, RegisterAt(r, j), id) && Same(r, RegisterAt(r, j), id)
  {}

  // ---- one step of anyone ----

  ghost predicate Live(w: World, who: Role, id: int) { id in SideOf(w, who).e.semMap }

  /** What the oldest lacking message waits for: recv if it is queued, else the listener. */
  function Needed(w: World, who: Role, id: int): Step {
    if Queue(SideOf(w, who), id) != [] then Recv(who, id) else Listen(who)
  }

  ghost predicate Moves(w: World, s: Step, w': World, who: Role, id: int) {
    var r, r' := SideOf(w, who), SideOf(w', who);
    && Keeps(r, r', id)
    && (Waits(r, id) ==> More(r, r', id) || Closer(r, r', id) || (Same(r, r', id) && s != Needed(w, who, id)))
  }

  lemma SameItself(r: Side, id: int)
    ensures Keeps(r, r, id) && Same(r, r, id)
  {}

  lemma OtherThreads(r: Side, r': Side, id: int)
    requires r' == r.(e := r'.e) && r'.e.queueMap == r.e.queueMap
    ensures Keeps(r, r', id) && Same(r, r', id)
  {}

  lemma ListenStepMoves(w: World, x: Role, who: Role, id: int)
    requires Inv(w) && Enabled(w, Listen(x)) && Live(w, who, id) && Live(Apply(w, Listen(x)), who, id)
    ensures Moves(w, Listen(x), Apply(w, Listen(x)), who, id)
  {
    InvSides(w);
    hide Inv, Consistent, Pipe, ListenAt, Handles, Keeps, Same, More, Closer, Waits;
    if x == who { ListenMoves(SideOf(w, x), id); } else { SameItself(SideOf(w, who), id); }
  }

  lemma RecvStepMoves(w: World, x: Role, j: int, who: Role, id: int)
    requires Inv(w) && Enabled(w, Recv(x, j)) && Live(w, who, id)
    ensures Moves(w, Recv(x, j), Apply(w, Recv(x, j)), who, id)
  {
    InvSides(w);
    hide Inv, SideInv, Consistent, WakeAt, CanWake, Keeps, Same, More, Closer, Waits;
    if x == who { WakeMoves(SideOf(w, x), j, id); } else { SameItself(SideOf(w, who), id); }
  }

  lemma CloseStepMoves(w: World, x: Role, j: int, who: Role, id: int)
    requires Inv(w) && Enabled(w, CloseSock(x, j)) && Live(w, who, id) && Live(Apply(w, CloseSock(x, j)), who, id)
    ensures Moves(w, CloseSock(x, j), Apply(w, CloseSock(x, j)), who, id)
  {
    InvSides(w);
    if x == who { ClosePieces(SideOf(w, x), j, id); }
    hide Inv, Consistent, SideInv, CloseAt, Deliver, Keeps, Same, More, Closer, Waits;
    if x == who { CloseMoves(SideOf(w, x), j, id); } else { DeliverWaits(SideOf(w, who), Close(j), id); }
  }

  lemma SendStepMoves(w: World, x: Role, j: int, p: Bytes, who: Role, id: int)
    requires Inv(w) && Enabled(w, Send(x, j, p))
    ensures Moves(w, Send(x, j, p), Apply(w, Send(x, j, p)), who, id)
  {
    hide Inv, Deliver, Keeps, Same, More, Closer, Waits;
    if x == who { SameItself(SideOf(w, who), id); } else { DeliverWaits(SideOf(w, who), Sock(j, p), id); }
  }

  lemma RegisterStepMoves(w: World, s: Step, who: Role, id: int)
    requires Inv(w) && Enabled(w, s) && Live(w, who, id) && (s.ConnectRegister? || s.AcceptRegister?)
    ensures Moves(w, s, Apply(w, s), who, id)
  {
    InvSides(w);
    assert id in SideOf(w, who).ever;
    hide Inv, SideInv, Consistent, RegisterAt, Keeps, Same, More, Closer, Waits;
    SameItself(SideOf(w, who), id);
    if s.ConnectRegister? {
      TakenIsNew(w);
      if who == Connector { RegisterMoves(w.c, w.taken.value, id); }
    } else {
      RepliedIsNew(w);
      if who == Acceptor { RegisterMoves(w.a, w.replied.value, id); }
    }
  }

  lemma ThreadStepMoves(w: World, s: Step, who: Role, id: int)
    requires Inv(w) && Enabled(w, s) && s in {Call, BeginConnect, ConnectWake, AcceptWake, AcceptReply}
    ensures Moves(w, s, Apply(w, s), who, id)
  {
    InvSides(w);
    hide Inv, SideInv, NextId, Deliver, Keeps, Same, More, Closer, Waits;
    var r, r' := SideOf(w, who), SideOf(Apply(w, s), who);
    if s == BeginConnect && who == Acceptor { DeliverWaits(r, Create, id); }
    else if s == AcceptReply && who == Connector { DeliverWaits(r, Accepted(NextId(w.a.e)), id); }
    else { OtherThreads(r, r', id); }
  }

  lemma StepMoves(w: World, s: Step, who: Role, id: int)
    requires Inv(w) && Enabled(w, s) && Live(w, who, id) && Live(Apply(w, s), who, id)
    ensures Moves(w, s, Apply(w, s), who, id)
  {
    hide Inv, Enabled, Apply, Moves, Live;
    match s {
      case Listen(x) => ListenStepMoves(w, x, who, id);
      case Recv(x, j) => RecvStepMoves(w, x, j, who, id);
      case CloseSock(x, j) => CloseStepMoves(w, x, j, who, id);
      case Send(x, j, p) => SendStepMoves(w, x, j, p, who, id);
      case ConnectRegister => RegisterStepMoves(w, s, who, id);
      case AcceptRegister => RegisterStepMoves(w, s, who, id);
      case _ => ThreadStepMoves(w, s, who, id);
    }
  }

  // ---- endless runs ----

  ghost predicate StaysLive(at: nat -> World, who: Role, id: int, i: nat) {
    forall k: nat :: i <= k ==> Live(at(k), who, id)
  }

  /** The listener is not kept waiting for ever, nor is recv on this socket. */
  ghost predicate KeepsReceiving(at: nat -> World, does: nat -> Option<Step>, who: Role, id: int) {
    forall i: nat :: Served(at, does, Listen(who), i) && Served(at, does, Recv(who, id), i)
  }

  ghost predicate Better(r: Side, r': Side, id: int) { More(r, r', id) || Closer(r, r', id) }

  /** From moment i on the oldest lacking message is at every moment where it was, nearer, or handed out. */
  ghost predicate Onward(at: nat -> World, who: Role, id: int, i: nat, j: nat) {
    var r := SideOf(at(i), who);
    && Keeps(r, SideOf(at(j), who), id)
    && (Lacks(r, id) ==>
          || (exists k: nat :: i < k <= j && Better(r, SideOf(at(k), who), id))
          || Same(r, SideOf(at(j), who), id))
  }

  lemma OneMoment(w: World, s: Option<Step>, w': World, who: Role, id: int)
    requires Inv(w) && Moment(w, s, w') && Live(w, who, id) && Live(w', who, id)
    ensures var r, r' := SideOf(w, who), SideOf(w', who);
            && Keeps(r, r', id)
            && (Lacks(r, id) ==> Better(r, r', id) || (Same(r, r', id) && s != Some(Needed(w, who, id))))
  {
    InvSides(w);
    LackingWaits(SideOf(w, who), id);
    hide Inv, SideInv, Keeps, Same, More, Closer, Waits, Lacks, Needed;
    if s.Some? { StepMoves(w, s.value, who, id); } else { SameItself(SideOf(w, who), id); }
  }

  lemma SameThen(r: Side, r': Side, r'': Side, id: int)
    requires Keeps(r, r', id) && Keeps(r', r'', id)
    ensures Keeps(r, r'', id)
    ensures Same(r, r', id) && Lacks(r, id) ==> Lacks(r', id)
    ensures Same(r, r', id) && Same(r', r'', id) ==> Same(r, r'', id)
    ensures Same(r, r', id) && Better(r', r'', id) ==> Better(r, r'', id)
  {}

  lemma {:induction false} NoMomentSetsBack(at: nat -> World, does: nat -> Option<Step>, who: Role, id: int,
                                            i: nat, j: nat)
    requires IsRun(at, does) && i <= j && StaysLive(at, who, id, i)
    ensures Onward(at, who, id, i, j)
    decreases j - i
  {
    hide Inv, IsRun, Moment, Keeps, Same, Better, Lacks, Live;
    if i == j {
      SameItself(SideOf(at(i), who), id);
    } else {
      NoMomentSetsBack(at, does, who, id, i, j - 1);
      RunInv(at, does, j - 1);
      assert Live(at(j - 1), who, id) && Live(at(j), who, id);
      OneMoment(at(j - 1), does(j - 1), at(j), who, id);
      SameThen(SideOf(at(i), who), SideOf(at(j - 1), who), SideOf(at(j), who), id);
    }
  }

  lemma NeededWhenSame(w: World, w': World, who: Role, id: int)
    requires Inv(w') && Live(w', who, id) && Same(SideOf(w, who), SideOf(w', who), id) && Lacks(SideOf(w', who), id)
    ensures Needed(w', who, id) == Needed(w, who, id) && Enabled(w', Needed(w', who, id))
  {
    LackingWaits(SideOf(w', who), id);
  }

  lemma SomethingHappens(at: nat -> World, does: nat -> Option<Step>, who: Role, id: int, i: nat)
    requires IsRun(at, does) && KeepsReceiving(at, does, who, id) && StaysLive(at, who, id, i)
    requires Lacks(SideOf(at(i), who), id)
    ensures exists k: nat :: i < k && Better(SideOf(at(i), who), SideOf(at(k), who), id)
  {
    hide Inv, IsRun, Moment, Keeps, Same, Better, Lacks, Live;
    var h := Needed(at(i), who, id);
    assert Served(at, does, h, i);
    var j: nat :| i <= j && TakenOrNot(at(j), does(j), h);
    NoMomentSetsBack(at, does, who, id, i, j);
    var r, r' := SideOf(at(i), who), SideOf(at(j), who);
    if Same(r, r', id) {
      RunInv(at, does, j);
      assert Live(at(j), who, id) && Live(at(j + 1), who, id);
      SameThen(r, r', r', id) by { SameItself(r', id); }
      NeededWhenSame(at(i), at(j), who, id);
      OneMoment(at(j), does(j), at(j + 1), who, id);
      SameThen(r, r', SideOf(at(j + 1), who), id);
    }
  }

  lemma {:induction false} OneIsHandedOut(at: nat -> World, does: nat -> Option<Step>, who: Role, id: int, i: nat)
    requires IsRun(at, does) && KeepsReceiving(at, does, who, id) && StaysLive(at, who, id, i)
    requires Lacks(SideOf(at(i), who), id)
    ensures exists k: nat :: i < k && More(SideOf(at(i), who), SideOf(at(k), who), id)
    decreases if Queue(SideOf(at(i), who), id) == [] then 1 else 0, Until(SideOf(at(i), who).inbox, id)
  {
    hide Inv, IsRun, Moment, Live, KeepsReceiving, Until;
    SomethingHappens(at, does, who, id, i);
    var k: nat :| i < k && Better(SideOf(at(i), who), SideOf(at(k), who), id);
    if !More(SideOf(at(i), who), SideOf(at(k), who), id) {
      NoMomentSetsBack(at, does, who, id, i, k);
      OneIsHandedOut(at, does, who, id, k);
    }
  }

  lemma {:induction false} AllAreHandled(at: nat -> World, does: nat -> Option<Step>, who: Role, id: int,
                                         i: nat, n: nat)
    requires IsRun(at, does) && KeepsReceiving(at, does, who, id) && StaysLive(at, who, id, i)
    requires n <= |At(SideOf(at(i), who).sent, id)|
    ensures exists k: nat :: i <= k && n <= Handled(SideOf(at(k), who), id)
    decreases n - Handled(SideOf(at(i), who), id)
  {
    hide Inv, IsRun, Moment, Live, KeepsReceiving, Handled;
    if Handled(SideOf(at(i), who), id) < n {
      OneIsHandedOut(at, does, who, id, i);
      var k: nat :| i < k && More(SideOf(at(i), who), SideOf(at(k), who), id);
      NoMomentSetsBack(at, does, who, id, i, k);
      AllAreHandled(at, does, who, id, k, n);
    }
  }

  /** What was sent by state r has been dropped before registration or handed out in state r'. */
  ghost predicate Arrived(r: Side, r': Side, id: int) {
    At(r.sent, id) <= At(r.early, id) + At(r'.got, id)
  }

  lemma HandledArrived(r: Side, r': Side, id: int)
    requires Keeps(r, r', id) && |At(r.sent, id)| <= Handled(r', id)
    requires At(r'.early, id) + At(r'.got, id) <= At(r'.sent, id)
    ensures Arrived(r, r', id)
  {}

  /** In every endless run, with any traffic: on a socket that stays open at the receiver, every message sent by some
      moment is eventually handed out by recv, in order, but for those that were dropped before registration. */
  lemma EverythingArrives(at: nat -> World, does: nat -> Option<Step>, who: Role, id: int, i: nat)
    requires IsRun(at, does) && KeepsReceiving(at, does, who, id) && StaysLive(at, who, id, i)
    ensures exists k: nat :: i <= k && Arrived(SideOf(at(i), who), SideOf(at(k), who), id)
  {
    hide Inv, IsRun, Moment, KeepsReceiving, SideInv, Keeps, Handled, Arrived, At;
    var r := SideOf(at(i), who);
    AllAreHandled(at, does, who, id, i, |At(r.sent, id)|);
    var k: nat :| i <= k && |At(r.sent, id)| <= Handled(SideOf(at(k), who), id);
    NoMomentSetsBack(at, does, who, id, i, k);
    RunInv(at, does, k);
    InvSides(at(k));
    assert Live(at(k), who, id);
    LackingWaits(SideOf(at(k), who), id);
    HandledArrived(r, SideOf(at(k), who), id);
  }
}
