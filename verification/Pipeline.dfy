/** The server's jobs, matched locally: for every user a transmit thread that queues images and a result thread
    that dispatches them, all result threads sharing the process_sem permits and the load counters. */
module Pipeline {
  import opened LoadMetrics

  type Job = string

  /** The transmit thread: at a header read; an image has arrived and been counted; it has been pushed but
      sem_match not yet posted; the disconnect has been noticed and the final post made. */
  datatype Tx = Reading | Submitted(job: Job) | Pushed | Finished

  /** The result thread: in sem_wait(sem_match); let through; holding a process_sem permit; torn down. */
  datatype Rx = Blocked | Awake | HasSlot | TornDown

  /** `sem` is sem_match; matching and leaving count the user's child threads before and after
      finish_request; pushed, dispatched and posts record what has happened. */
  datatype User = User(tx: Tx, queue: seq<Job>, sem: nat, rx: Rx, matching: nat, leaving: nat,
                       pushed: seq<Job>, dispatched: seq<Job>, posts: nat)

  const LOGIN: User := User(Reading, [], 0, Blocked, 0, 0, [], [], 0)

  datatype Server = Server(limit: nat, slots: nat, submitted: nat, finished: nat, users: seq<User>)

  function Init(limit: nat): Server { Server(limit, limit, 0, 0, []) }

  datatype Action =
    | Submit(job: Job) | Push | PostJob | Disconnect          // transmit thread
    | Wake | TearDown | TakeSlot | Dispatch                   // result thread
    | Finish | Release                                        // a child thread

  datatype Step = Login | Act(user: nat, action: Action)

  predicate CanAct(slots: nat, u: User, a: Action) {
    match a
    case Submit(_) => u.tx == Reading
    case Push => u.tx.Submitted?
    case PostJob => u.tx == Pushed
    case Disconnect => u.tx == Reading && u.pushed != []
    case Wake => u.rx == Blocked && u.sem > 0
    case TearDown => u.rx == Awake && u.queue == []
    case TakeSlot => u.rx == Awake && u.queue != [] && slots > 0
    case Dispatch => u.rx == HasSlot
    case Finish => u.matching > 0
    case Release => u.leaving > 0
  }

  function ActUser(u: User, a: Action): User
    requires CanAct(1, u, a) && UserInv(u)
  {
    match a
    case Submit(job) => u.(tx := Submitted(job))
    case Push => u.(tx := Pushed, queue := u.queue + [u.tx.job], pushed := u.pushed + [u.tx.job])
    case PostJob => u.(tx := Reading, sem := u.sem + 1, posts := u.posts + 1)
    case Disconnect => u.(tx := Finished, sem := u.sem + 1, posts := u.posts + 1)
    case Wake => u.(rx := Awake, sem := u.sem - 1)
    case TearDown => u.(rx := TornDown)
    case TakeSlot => u.(rx := HasSlot)
    case Dispatch =>
      u.(rx := Blocked, queue := u.queue[1..], dispatched := u.dispatched + [u.queue[0]], matching := u.matching + 1)
    case Finish => u.(matching := u.matching - 1, leaving := u.leaving + 1)
    case Release => u.(leaving := u.leaving - 1)
  }

  predicate Enabled(s: Server, step: Step) {
    step.Act? ==> step.user < |s.users| && CanAct(s.slots, s.users[step.user], step.action)
  }

  function Apply(s: Server, step: Step): Server
    requires Inv(s) && Enabled(s, step)
  {
    match step
    case Login => s.(users := s.users + [LOGIN])
    case Act(i, a) =>
      s.(users := s.users[i := ActUser(s.users[i], a)],
         slots := if a == TakeSlot then s.slots - 1 else if a == Release then s.slots + 1 else s.slots,
         submitted := s.submitted + if a.Submit? then 1 else 0,
         finished := s.finished + if a == Finish then 1 else 0)
  }

  // ---- the invariant ----

  /** sem_match, plus the permit that a woken result thread has taken from it, counts the images that are
      queued and announced, plus one for the end. */
  predicate UserInv(u: User) {
    && u.pushed == u.dispatched + u.queue
    && u.posts == |u.pushed| - (if u.tx == Pushed then 1 else 0) + (if u.tx == Finished then 1 else 0)
    && u.sem + (if u.rx == Blocked then 0 else 1)
         == |u.queue| - (if u.tx == Pushed then 1 else 0) + (if u.tx == Finished then 1 else 0)
    && (u.rx == HasSlot ==> u.queue != [])
    && (u.rx == TornDown ==> u.tx == Finished && u.queue == [])
  }

  /** process_sem permits that the user's threads hold. */
  function Held(u: User): nat { (if u.rx == HasSlot then 1 else 0) + u.matching + u.leaving }

  /** Images counted as submitted and not as finished: not pushed yet, queued, or popped and being matched. */
  function Ongoing(u: User): nat { (if u.tx.Submitted? then 1 else 0) + |u.queue| + u.matching }

  function Sum(us: seq<User>, f: User -> nat): nat {
    if us == [] then 0 else f(us[0]) + Sum(us[1..], f)
  }

  lemma {:induction false} SumUpdate(us: seq<User>, i: nat, u: User, f: User -> nat)
    requires i < |us|
    ensures Sum(us[i := u], f) == Sum(us, f) - f(us[i]) + f(u)
    decreases |us|
  {
    if i == 0 {
      assert us[0 := u][1..] == us[1..];
    } else {
      assert us[i := u][1..] == us[1..][i - 1 := u];
      SumUpdate(us[1..], i - 1, u, f);
    }
  }

  lemma {:induction false} SumAppend(us: seq<User>, u: User, f: User -> nat)
    ensures Sum(us + [u], f) == Sum(us, f) + f(u)
    decreases |us|
  {
    if us == [] {
      assert [] + [u] == [u] && [u][1..] == [];
    } else {
      assert (us + [u])[1..] == us[1..] + [u];
      SumAppend(us[1..], u, f);
    }
  }

  lemma {:induction false} SumZero(us: seq<User>, f: User -> nat)
    requires forall i :: 0 <= i < |us| ==> f(us[i]) == 0
    ensures Sum(us, f) == 0
    decreases |us|
  {
    if us != [] {
      assert forall i :: 0 <= i < |us[1..]| ==> us[1..][i] == us[i + 1];
      SumZero(us[1..], f);
    }
  }

  predicate Inv(s: Server) {
    && (forall i :: 0 <= i < |s.users| ==> UserInv(s.users[i]))
    && s.slots + Sum(s.users, Held) == s.limit
    && s.submitted - s.finished == Sum(s.users, Ongoing)
  }

  /** What one action changes for the user, and that it leaves the user's books in order. */
  lemma ActUserInv(slots: nat, u: User, a: Action)
    requires UserInv(u) && CanAct(slots, u, a)
    ensures CanAct(1, u, a) && UserInv(ActUser(u, a))
    ensures Held(ActUser(u, a)) == Held(u) + (if a == TakeSlot then 1 else 0) - (if a == Release then 1 else 0)
    ensures Ongoing(ActUser(u, a)) == Ongoing(u) + (if a.Submit? then 1 else 0) - (if a == Finish then 1 else 0)
  {
    if a == Dispatch {
      assert u.dispatched + [u.queue[0]] + u.queue[1..] == u.dispatched + u.queue;
    } else if a.Push? {
      assert u.dispatched + u.queue + [u.tx.job] == u.dispatched + (u.queue + [u.tx.job]);
    }
  }

  lemma StepInv(s: Server, step: Step)
    requires Inv(s) && Enabled(s, step)
    ensures Inv(Apply(s, step))
  {
    match step {
      case Login =>
        SumAppend(s.users, LOGIN, Held);
        SumAppend(s.users, LOGIN, Ongoing);
      case Act(i, a) =>
        ActUserInv(s.slots, s.users[i], a);
        SumUpdate(s.users, i, ActUser(s.users[i], a), Held);
        SumUpdate(s.users, i, ActUser(s.users[i], a), Ongoing);
    }
  }

  ghost predicate CanRun(s: Server, steps: seq<Step>)
    requires Inv(s)
    decreases |steps|
  {
    steps != [] ==> Enabled(s, steps[0]) && (StepInv(s, steps[0]); CanRun(Apply(s, steps[0]), steps[1..]))
  }

  ghost function Run(s: Server, steps: seq<Step>): (s': Server)
    requires Inv(s) && CanRun(s, steps)
    ensures Inv(s') && s'.limit == s.limit
    decreases |steps|
  {
    if steps == [] then s
    else
      StepInv(s, steps[0]);
      Run(Apply(s, steps[0]), steps[1..])
  }

  // ---- guarantees over all runs ----

  /** The images that have arrived for user i, as the steps of a run say. */
  function Arrived(steps: seq<Step>, i: nat): seq<Job> {
    if steps == [] then []
    else (if steps[0].Act? && steps[0].user == i && steps[0].action.Submit? then [steps[0].action.job] else [])
         + Arrived(steps[1..], i)
  }

  /** The images that the transmit thread of user i has taken in. */
  function TakenIn(s: Server, i: nat): seq<Job> {
    if i < |s.users| then s.users[i].pushed + (if s.users[i].tx.Submitted? then [s.users[i].tx.job] else []) else []
  }

  lemma StepTakesIn(s: Server, step: Step, i: nat)
    requires Inv(s) && Enabled(s, step)
    ensures TakenIn(Apply(s, step), i) == TakenIn(s, i) + Arrived([step], i)
  {
    hide UserInv, Sum;
    assert [step][1..] == [];
  }

  lemma ArrivedCons(step: Step, rest: seq<Step>, i: nat)
    ensures Arrived([step] + rest, i) == Arrived([step], i) + Arrived(rest, i)
  {
    assert [step][1..] == [] && ([step] + rest)[1..] == rest;
  }

  lemma {:induction false} RunTakesIn(s: Server, steps: seq<Step>, i: nat)
    requires Inv(s) && CanRun(s, steps)
    ensures TakenIn(Run(s, steps), i) == TakenIn(s, i) + Arrived(steps, i)
    decreases |steps|
  {
    hide Inv, Enabled, Apply, TakenIn, Arrived;
    if steps == [] {
      NoneArrived(i);
    } else {
      StepInv(s, steps[0]);
      StepTakesIn(s, steps[0], i);
      RunTakesIn(Apply(s, steps[0]), steps[1..], i);
      assert steps == [steps[0]] + steps[1..];
      ArrivedCons(steps[0], steps[1..], i);
    }
  }

  lemma NoneArrived(i: nat)
    ensures Arrived([], i) == []
  {}

  lemma DispatchedOf(u: User, arrived: seq<Job>)
    requires UserInv(u) && u.pushed + (if u.tx.Submitted? then [u.tx.job] else []) == arrived
    ensures u.dispatched <= u.pushed && u.pushed[|u.dispatched|..] == u.queue
    ensures u.dispatched == arrived[..|u.dispatched|]
    ensures u.tx == Finished && u.queue == [] ==> u.dispatched == arrived
  {
    assert u.pushed == arrived[..|u.pushed|];
    assert u.dispatched == u.pushed[..|u.dispatched|];
  }

  /** With any number of users, in every reachable state: the result threads dispatch the images that arrived for
      their user, in that order, each once; one that holds a permit has an image to pop; and one that has torn down
      had been told to by the final post, one more than there were images, and had dispatched all that arrived. */
  lemma EveryImageDispatchedOnce(limit: nat, steps: seq<Step>, i: nat)
    requires CanRun(Init(limit), steps) && i < |Run(Init(limit), steps).users|
    ensures Inv(Init(limit))
    ensures var u := Run(Init(limit), steps).users[i];
            && u.pushed + (if u.tx.Submitted? then [u.tx.job] else []) == Arrived(steps, i)
            && u.dispatched <= u.pushed && u.pushed[|u.dispatched|..] == u.queue
            && u.dispatched == Arrived(steps, i)[..|u.dispatched|]
            && (u.rx == HasSlot ==> u.queue != [])
            && (u.rx == TornDown ==>
                  u.dispatched == Arrived(steps, i) && u.tx == Finished && u.posts == |u.pushed| + 1 && u.sem == 0)
            && (CanAct(1, u, TearDown) ==> u.tx == Finished && u.dispatched == Arrived(steps, i))
  {
    var u := Run(Init(limit), steps).users[i];
    assert UserInv(u);
    hide Inv, Arrived, Run, CanRun;
    RunTakesIn(Init(limit), steps, i);
    assert [] + Arrived(steps, i) == Arrived(steps, i);
    DispatchedOf(u, Arrived(steps, i));
  }

  // ---- the counters against what happened ----

  predicate IsSubmit(step: Step) { step.Act? && step.action.Submit? }
  predicate IsFinish(step: Step) { step.Act? && step.action == Finish }
  predicate IsTakeSlot(step: Step) { step.Act? && step.action == TakeSlot }
  predicate IsRelease(step: Step) { step.Act? && step.action == Release }

  function Times(steps: seq<Step>, p: Step -> bool): nat {
    if steps == [] then 0 else (if p(steps[0]) then 1 else 0) + Times(steps[1..], p)
  }

  /** The counters of Metrics and process_sem count the steps that have been taken, whoever took them. */
  lemma {:induction false} CountersCountSteps(s: Server, steps: seq<Step>)
    requires Inv(s) && CanRun(s, steps)
    ensures var s' := Run(s, steps);
            && s'.submitted == s.submitted + Times(steps, IsSubmit)
            && s'.finished == s.finished + Times(steps, IsFinish)
            && s'.slots + Times(steps, IsTakeSlot) == s.slots + Times(steps, IsRelease)
    decreases |steps|
  {
    hide Inv, Sum;
    if steps != [] {
      StepInv(s, steps[0]);
      CountersCountSteps(Apply(s, steps[0]), steps[1..]);
    }
  }

  /** Permits are conserved, so that at most `limit` images are matched at once; and the load counters agree
      with the threads, so that ongoing is never negative and the load is a fraction. */
  lemma Conservation(limit: nat, steps: seq<Step>)
    requires CanRun(Init(limit), steps)
    ensures var s := Run(Init(limit), steps);
            && s.slots + Sum(s.users, Held) == limit
            && s.submitted - s.finished == Sum(s.users, Ongoing) >= 0
            && s.submitted == Times(steps, IsSubmit) && s.finished == Times(steps, IsFinish)
            && 0.0 <= Load(s.submitted, s.finished) <= 1.0
  {
    var s := Run(Init(limit), steps);
    CountersCountSteps(Init(limit), steps);
    LoadIsFractionIff(s.submitted, s.finished);
  }

  // ---- progress ----

  /** The actions of result threads and children. */
  predicate Internal(step: Step) {
    step.Act? && step.action in {Wake, TearDown, TakeSlot, Dispatch, Finish, Release}
  }

  function Work(u: User): nat {
    2 * u.sem + 6 * |u.queue| + (if u.rx == Awake then 1 else 0) + 3 * u.matching + 2 * u.leaving
  }

  /** The work that a transmit thread brings in with a push and with a post. */
  function Brings(step: Step): nat {
    if step.Login? then 0 else match step.action
      case Push => 6
      case PostJob => 2
      case Disconnect => 2
      case _ => 0
  }

  lemma UserWork(slots: nat, u: User, a: Action)
    requires UserInv(u) && CanAct(slots, u, a)
    ensures CanAct(1, u, a)
    ensures Work(ActUser(u, a)) + (if Internal(Act(0, a)) then 1 else 0) <= Work(u) + Brings(Act(0, a))
  {}

  lemma StepWork(s: Server, step: Step)
    requires Inv(s) && Enabled(s, step)
    ensures Sum(Apply(s, step).users, Work) + (if Internal(step) then 1 else 0) <= Sum(s.users, Work) + Brings(step)
  {
    hide UserInv, Sum, Work, ActUser;
    match step {
      case Login =>
        SumAppend(s.users, LOGIN, Work);
        LoginWork();
      case Act(i, a) =>
        UserWork(s.slots, s.users[i], a);
        SumUpdate(s.users, i, ActUser(s.users[i], a), Work);
    }
  }

  lemma LoginWork()
    ensures Work(LOGIN) == 0
  {}

  ghost predicate Stuck(s: Server) { forall step :: Internal(step) ==> !Enabled(s, step) }

  ghost predicate Settled(u: User) {
    && (u.tx == Finished ==> u.rx == TornDown && u.dispatched == u.pushed)
    && (u.tx != Pushed ==> u.queue == [])
    && u.matching == u.leaving == 0
  }

  lemma NothingIsStuck(s: Server, i: nat)
    requires Inv(s) && s.limit > 0 && Stuck(s) && i < |s.users|
    ensures Settled(s.users[i])
  {
    forall k | 0 <= k < |s.users| ensures Held(s.users[k]) == 0 {
      assert !Enabled(s, Act(k, Dispatch)) && !Enabled(s, Act(k, Finish)) && !Enabled(s, Act(k, Release));
    }
    SumZero(s.users, Held);
    assert !Enabled(s, Act(i, Wake)) && !Enabled(s, Act(i, TearDown)) && !Enabled(s, Act(i, TakeSlot));
    assert !Enabled(s, Act(i, Finish)) && !Enabled(s, Act(i, Release));
    assert UserInv(s.users[i]);
  }

  function Internals(steps: seq<Step>): nat {
    if steps == [] then 0 else (if Internal(steps[0]) then 1 else 0) + Internals(steps[1..])
  }

  function Brought(steps: seq<Step>): nat {
    if steps == [] then 0 else Brings(steps[0]) + Brought(steps[1..])
  }

  lemma {:induction false} WorkRunsOut(s: Server, steps: seq<Step>)
    requires Inv(s) && CanRun(s, steps)
    ensures Internals(steps) <= Sum(s.users, Work) + Brought(steps)
    decreases |steps|
  {
    hide Inv, Sum, Enabled, Internal, Brings;
    if steps != [] {
      StepInv(s, steps[0]);
      StepWork(s, steps[0]);
      WorkRunsOut(Apply(s, steps[0]), steps[1..]);
    }
  }

  /** With at least one permit and under every schedule, while users log in and images arrive: the result threads and
      their children take at most eight steps for each image and two for the end of each user, besides those for
      the work there was; and whenever none of them can move, every user that has disconnected has been torn down
      with all images dispatched, and every other user's announced images are dispatched and matched. */
  lemma EveryJobCompletes(s: Server, steps: seq<Step>)
    requires Inv(s) && s.limit > 0 && CanRun(s, steps)
    ensures Internals(steps) <= Sum(s.users, Work) + Brought(steps)
    ensures var s' := Run(s, steps);
            Stuck(s') ==> forall i :: 0 <= i < |s'.users| ==> Settled(s'.users[i])
  {
    WorkRunsOut(s, steps);
    var s' := Run(s, steps);
    if Stuck(s') {
      forall i | 0 <= i < |s'.users| ensures Settled(s'.users[i]) { NothingIsStuck(s', i); }
    }
  }
}
