/** Any number of transmit threads of the C++ client share one socket under sendLock, while the server serves
    it: every interleaving delivers exactly the images in lock order. */
module Transfer {
  import opened Bytes
  import opened Session

  datatype Phase = Fresh | Waiting | Sending

  /** The thread that holds sendLock: its image, how far it is, and the part of the file not read yet. */
  datatype Sender = Sender(job: Job, phase: Phase, rest: Bytes)

  /** `jobs` has what the threads send, in the order in which they took the lock, and `log` every message sent. */
  datatype State = State(holder: Option<Sender>, channel: seq<Bytes>, server: Server, replies: nat,
                         jobs: seq<Job>, log: seq<Bytes>)

  const START: State := State(None, [], Idle([]), 0, [], [])

  /** The images in lock order. */
  function Order(s: State): seq<Image> { Images(s.jobs) }

  function Put(s: State, m: Bytes): State { s.(channel := s.channel + [m], log := s.log + [m]) }

  datatype Step = Lock(job: Job) | SendHeader | GetReply | SendBlock | Unlock | Serve

  predicate Enabled(s: State, step: Step) {
    match step
    case Lock(job) => s.holder == None && Good(job) && job.image.data != []
    case SendHeader => s.holder.Some? && s.holder.value.phase == Fresh && Good(s.holder.value.job)
    case GetReply => s.holder.Some? && s.holder.value.phase == Waiting && s.replies > 0
    case SendBlock => s.holder.Some? && s.holder.value.phase == Sending && s.holder.value.rest != []
    case Unlock => s.holder.Some? && s.holder.value.phase == Sending && s.holder.value.rest == []
    case Serve => s.channel != []
  }

  function Apply(s: State, step: Step): State
    requires Enabled(s, step)
  {
    match step
    case Lock(job) => s.(holder := Some(Sender(job, Fresh, job.image.data)), jobs := s.jobs + [job])
    case SendHeader =>
      var h := s.holder.value;
      HeaderFits(h.job.image);
      Put(s, HeaderMessage(h.job.image, h.job.stack)).(holder := Some(h.(phase := Waiting)))
    case GetReply => s.(holder := Some(s.holder.value.(phase := Sending)), replies := s.replies - 1)
    case SendBlock =>
      var h := s.holder.value;
      var n := BlockSize(h.rest);
      Put(s, Pad(h.rest[..n])).(holder := Some(h.(rest := h.rest[n..])))
    case Unlock => s.(holder := None)
    case Serve =>
      var server := ServerStep(s.server, s.channel[0]);
      s.(channel := s.channel[1..], server := server,
         replies := s.replies + if s.server.Idle? && server.Receiving? then 1 else 0)
  }

  /** Replies that the server will still give for the messages on their way. */
  function Starts(server: Server, channel: seq<Bytes>): nat
    decreases |channel|
  {
    if channel == [] then 0
    else
      var server' := ServerStep(server, channel[0]);
      (if server.Idle? && server'.Receiving? then 1 else 0) + Starts(server', channel[1..])
  }

  lemma {:induction false} Arrives(server: Server, channel: seq<Bytes>, m: Bytes)
    ensures var end := Feed(server, channel);
            && Feed(server, channel + [m]) == ServerStep(end, m)
            && Starts(server, channel + [m])
               == Starts(server, channel) + if end.Idle? && ServerStep(end, m).Receiving? then 1 else 0
    decreases |channel|
  {
    if channel == [] {
      FeedOne(server, m, []);
      assert [m] + [] == [m] && [] + [m] == [m] && [m][1..] == [];
    } else {
      assert (channel + [m])[1..] == channel[1..] + [m];
      Arrives(ServerStep(server, channel[0]), channel[1..], m);
    }
  }

  /** Where the server will be once the channel is empty. */
  ghost predicate Inv(s: State) {
    var end, order := Feed(s.server, s.channel), Order(s);
    && s.replies + Starts(s.server, s.channel) == (if s.holder.Some? && s.holder.value.phase == Waiting then 1 else 0)
    && match s.holder
       case None => end == Idle(order)
       case Some(Sender(job, phase, rest)) =>
         && Good(job) && order != [] && order[|order| - 1] == job.image
         && |rest| <= |job.image.data| && rest == job.image.data[|job.image.data| - |rest|..]
         && if phase == Fresh then rest == job.image.data != [] && end == Idle(order[..|order| - 1])
            else if rest == [] then phase == Sending && end == Idle(order)
            else end == Receiving(order[..|order| - 1], job.image.name, |job.image.data|,
                                  job.image.data[..|job.image.data| - |rest|])
  }

  lemma StepInv(s: State, step: Step)
    requires Inv(s) && Enabled(s, step)
    ensures Inv(Apply(s, step))
  {
    hide Feed, Starts, Images, ServerStep, Good, Pad, HeaderMessage;
    match step {
      case Lock(job) => LockInv(s, job);
      case SendHeader => SendHeaderInv(s);
      case SendBlock => SendBlockInv(s);
      case Serve => ServeInv(s);
      case GetReply =>
      case Unlock =>
    }
  }

  /** One block brings the server from `done` bytes of the image to `done + n`. */
  lemma BlockArrives(images: seq<Image>, image: Image, done: nat)
    requires done < |image.data|
    ensures var data := image.data;
            var n := BlockSize(data[done..]);
            ServerStep(Receiving(images, image.name, |data|, data[..done]), Pad(data[done..][..n]))
              == if done + n == |data| then Idle(images + [image])
                 else Receiving(images, image.name, |data|, data[..done + n])
  {
    var data := image.data;
    var n := BlockSize(data[done..]);
    var block := Pad(data[done..][..n]);
    assert data[done..][..n] == data[done..done + n];
    assert Received(block, BLOCK) == block && block[..n] == data[done..done + n];
    assert data[..done] + data[done..done + n] == data[..done + n];
    if done + n == |data| {
      assert data[..done + n] == data;
    } else {
      assert Received(block, BLOCK) == data[done..done + n];
    }
  }

  lemma LockInv(s: State, job: Job)
    requires Inv(s) && Enabled(s, Lock(job))
    ensures Inv(Apply(s, Lock(job)))
  {
    hide Feed, Starts, Good;
    assert Images(s.jobs + [job]) == Order(s) + [job.image];
    assert (Order(s) + [job.image])[..|s.jobs|] == Order(s);
  }

  lemma SendHeaderInv(s: State)
    requires Inv(s) && Enabled(s, SendHeader)
    ensures Inv(Apply(s, SendHeader))
  {
    hide Images, Feed, Starts, HeaderMessage, HeaderText, ServerStep, Named, Received;
    var h := s.holder.value;
    HeaderFits(h.job.image);
    var header := HeaderMessage(h.job.image, h.job.stack);
    HeaderStarts(Order(s)[..|Order(s)| - 1], h.job.image, h.job.stack);
    Arrives(s.server, s.channel, header);
    assert h.job.image.data[..0] == [];
  }

  lemma ServeInv(s: State)
    requires Inv(s) && Enabled(s, Serve)
    ensures Inv(Apply(s, Serve))
  {
    var next, rest := ServerStep(s.server, s.channel[0]), s.channel[1..];
    assert Feed(s.server, s.channel) == Feed(next, rest);
    assert Starts(s.server, s.channel) == (if s.server.Idle? && next.Receiving? then 1 else 0) + Starts(next, rest);
    hide ServerStep, Images, Good, Feed, Starts;
  }

  lemma SendBlockInv(s: State)
    requires Inv(s) && Enabled(s, SendBlock)
    ensures Inv(Apply(s, SendBlock))
  {
    var h := s.holder.value;
    var data, rest, n := h.job.image.data, h.rest, BlockSize(h.rest);
    var done := |data| - |rest|;
    Arrives(s.server, s.channel, Pad(rest[..n]));
    BlockArrives(Order(s)[..|Order(s)| - 1], h.job.image, done);
    hide ServerStep, Feed, Starts, Pad, Images;
    assert rest[n..] == data[done + n..];
    assert Order(s) == Order(s)[..|Order(s)| - 1] + [h.job.image];
  }

  ghost predicate CanRun(s: State, steps: seq<Step>)
    decreases |steps|
  {
    steps != [] ==> Enabled(s, steps[0]) && CanRun(Apply(s, steps[0]), steps[1..])
  }

  ghost function Run(s: State, steps: seq<Step>): (s': State)
    requires Inv(s) && CanRun(s, steps)
    ensures Inv(s')
    decreases |steps|
  {
    if steps == [] then s
    else
      StepInv(s, steps[0]);
      Run(Apply(s, steps[0]), steps[1..])
  }

  /** Images that the server has rebuilt. */
  function Done(server: Server): seq<Image>
    requires !server.Undefined?
  { server.done }

  lemma {:induction false} DoneOnlyGrows(server: Server, channel: seq<Bytes>)
    requires !Feed(server, channel).Undefined?
    ensures !server.Undefined? && server.done <= Feed(server, channel).done
    decreases |channel|
  {
    if server.Undefined? {
      StaysUndefined(channel);
    } else if channel != [] {
      DoneOnlyGrows(ServerStep(server, channel[0]), channel[1..]);
    }
  }

  /** What the threads that took the lock in a run have to send, as its steps say. */
  function Locked(steps: seq<Step>): seq<Job> {
    if steps == [] then [] else (if steps[0].Lock? then [steps[0].job] else []) + Locked(steps[1..])
  }

  lemma StepLocks(s: State, step: Step)
    requires Enabled(s, step)
    ensures Apply(s, step).jobs == s.jobs + if step.Lock? then [step.job] else []
  {
    hide ServerStep, Pad, HeaderMessage, Good;
  }

  lemma {:induction false} RunLocks(s: State, steps: seq<Step>)
    requires Inv(s) && CanRun(s, steps)
    ensures Run(s, steps).jobs == s.jobs + Locked(steps)
    decreases |steps|
  {
    hide Inv, Enabled, Apply;
    if steps != [] {
      StepInv(s, steps[0]);
      StepLocks(s, steps[0]);
      RunLocks(Apply(s, steps[0]), steps[1..]);
    }
  }

  lemma ServedSoFar(s: State)
    requires Inv(s)
    ensures !s.server.Undefined? && Done(s.server) <= Order(s)
    ensures s.holder == None && s.channel == [] ==> s.server == Idle(Order(s)) && s.replies == 0
  {
    hide Images, Good, ServerStep;
    DoneOnlyGrows(s.server, s.channel);
  }

  /** In every run, at every moment, the server has rebuilt the first few of the images in the order in which their
      threads took the lock; and once the lock is free and the channel empty, all of them, with nothing left over. */
  lemma DeliveredInLockOrder(steps: seq<Step>)
    requires CanRun(START, steps)
    ensures Inv(START)
    ensures var s := Run(START, steps);
            && s.jobs == Locked(steps) && Order(s) == Images(Locked(steps))
            && !s.server.Undefined? && Done(s.server) <= Order(s)
            && (s.holder == None && s.channel == [] ==> s.server == Idle(Order(s)) && s.replies == 0)
  {
    assert Inv(START);
    hide Inv, Images, CanRun, Run, Locked, Done;
    ServedSoFar(Run(START, steps));
    RunLocks(START, steps);
    assert [] + Locked(steps) == Locked(steps);
  }

  // ---- what goes into the socket ----

  /** What the lock holder has still to send. */
  function Remaining(holder: Option<Sender>): seq<Bytes>
    requires holder.Some? ==> Good(holder.value.job)
  {
    if holder == None then []
    else
      var h := holder.value;
      HeaderFits(h.job.image);
      (if h.phase == Fresh then [HeaderMessage(h.job.image, h.job.stack)] else []) + CppBlocks(h.rest)
  }

  ghost predicate Logged(s: State) {
    && AllGood(s.jobs) && AllInStep(Cpp, s.jobs)
    && (s.holder.Some? ==> Good(s.holder.value.job))
    && s.log + Remaining(s.holder) == SessionMessages(Cpp, s.jobs)
  }

  lemma {:induction false} SessionMessagesAppend(jobs: seq<Job>, job: Job)
    requires AllGood(jobs) && Good(job)
    ensures AllGood(jobs + [job])
    ensures SessionMessages(Cpp, jobs + [job]) == SessionMessages(Cpp, jobs) + Messages(Cpp, job.image, job.stack)
    decreases |jobs|
  {
    hide Named, Messages;
    if jobs == [] {
      var one := jobs + [job];
      assert one[0] == job && one[1..] == [];
      assert SessionMessages(Cpp, one) == Messages(Cpp, job.image, job.stack) + [];
    } else {
      assert (jobs + [job])[1..] == jobs[1..] + [job];
      SessionMessagesAppend(jobs[1..], job);
    }
  }

  lemma LoggedStep(s: State, step: Step)
    requires Logged(s) && Enabled(s, step)
    ensures Logged(Apply(s, step))
  {
    match step {
      case Lock(job) => LoggedLock(s, job);
      case SendBlock => LoggedBlock(s);
      case SendHeader => LoggedHeader(s);
      case _ => hide Good, AllGood, AllInStep, HeaderMessage, CppBlocks, SessionMessages, ServerStep;
    }
  }

  lemma LoggedLock(s: State, job: Job)
    requires Logged(s) && Enabled(s, Lock(job))
    ensures Logged(Apply(s, Lock(job)))
  {
    hide Named, HeaderMessage, CppBlocks, SessionMessages;
    SessionMessagesAppend(s.jobs, job);
    HeaderFits(job.image);
  }

  lemma LoggedHeader(s: State)
    requires Logged(s) && Enabled(s, SendHeader)
    ensures Logged(Apply(s, SendHeader))
  {
    hide AllGood, AllInStep, Named, HeaderMessage, CppBlocks, SessionMessages;
    var job, rest := s.holder.value.job, s.holder.value.rest;
    HeaderFits(job.image);
    var header := HeaderMessage(job.image, job.stack);
    assert s.log + ([header] + CppBlocks(rest)) == s.log + [header] + ([] + CppBlocks(rest));
  }

  lemma LoggedBlock(s: State)
    requires Logged(s) && Enabled(s, SendBlock)
    ensures Logged(Apply(s, SendBlock))
  {
    hide AllGood, AllInStep, Good, Pad, HeaderMessage, SessionMessages;
    var rest := s.holder.value.rest;
    var n := BlockSize(rest);
    CppBlocksStep(rest);
    hide CppBlocks;
    var block, more := [Pad(rest[..n])], CppBlocks(rest[n..]);
    assert s.log + ([] + (block + more)) == s.log + block + ([] + more);
  }

  lemma {:induction false} LoggedRun(s: State, steps: seq<Step>)
    requires Inv(s) && Logged(s) && CanRun(s, steps)
    ensures Logged(Run(s, steps))
    decreases |steps|
  {
    hide Inv, Logged;
    if steps != [] {
      StepInv(s, steps[0]);
      LoggedStep(s, steps[0]);
      LoggedRun(Apply(s, steps[0]), steps[1..]);
    }
  }

  ghost predicate StartsRun(steps: seq<Step>) { Inv(START) && CanRun(START, steps) }

  ghost predicate Reachable(s: State) { exists steps :: StartsRun(steps) && s == Run(START, steps) }

  /** In every state that the threads reach, the messages sent so far are the first ones of the session of their images
      in lock order, and all of them when the lock is free; and no image there is empty. */
  lemma SentInLockOrder(s: State)
    requires Reachable(s)
    ensures AllGood(s.jobs) && AllInStep(Cpp, s.jobs) && s.log <= SessionMessages(Cpp, s.jobs)
    ensures s.holder == None ==> s.log == SessionMessages(Cpp, s.jobs)
  {
    var steps :| StartsRun(steps) && s == Run(START, steps);
    assert Logged(START);
    hide Logged;
    LoggedRun(START, steps);
    LogIsPrefix(s);
  }

  lemma LogIsPrefix(s: State)
    requires Logged(s)
    ensures AllGood(s.jobs) && AllInStep(Cpp, s.jobs) && s.log <= SessionMessages(Cpp, s.jobs)
    ensures s.holder == None ==> s.log == SessionMessages(Cpp, s.jobs)
  {}

  // ---- progress ----

  function Ahead(s: State): nat {
    |s.channel| + match s.holder
      case None => 0
      case Some(Sender(_, phase, rest)) =>
        1 + 2 * |CppBlocks(rest)| + (if phase == Fresh then 4 else if phase == Waiting then 1 else 0)
  }

  /** Nothing deadlocks: while a thread holds the lock or a message is on its way some step other than another
      Lock is enabled, and each such step brings the transfer nearer to its end. */
  lemma Progress(s: State)
    requires Inv(s) && (s.holder.Some? || s.channel != [])
    ensures exists step: Step :: !step.Lock? && Enabled(s, step)
    ensures forall step: Step :: !step.Lock? && Enabled(s, step) ==> Ahead(Apply(s, step)) < Ahead(s)
  {
    var step :=
      if s.channel != [] then Serve
      else match s.holder.value.phase
        case Fresh => SendHeader
        case Waiting => GetReply
        case Sending => if s.holder.value.rest != [] then SendBlock else Unlock;
    assert !step.Lock? && Enabled(s, step);
    if Enabled(s, SendBlock) { CppBlocksStep(s.holder.value.rest); }
  }

  lemma RestIsEnd(s: State)
    requires Inv(s) && forall step: Step :: !step.Lock? ==> !Enabled(s, step)
    ensures s.holder == None && s.channel == [] && s.server == Idle(Order(s))
  {
    if s.holder.Some? || s.channel != [] { Progress(s); }
  }

  /** Over runs: until another thread takes the lock there are at most Ahead(s) steps, in any order; and when none is
      enabled the lock is free and the server has rebuilt all images in lock order. */
  lemma {:induction false} TransferEnds(s: State, steps: seq<Step>)
    requires Inv(s) && CanRun(s, steps) && forall k :: 0 <= k < |steps| ==> !steps[k].Lock?
    ensures |steps| <= Ahead(s) && Order(Run(s, steps)) == Order(s)
    ensures var s' := Run(s, steps);
            (forall step: Step :: !step.Lock? ==> !Enabled(s', step)) ==>
              s'.holder == None && s'.server == Idle(Order(s))
    decreases |steps|
  {
    hide Inv, Ahead, Feed, Starts;
    if steps == [] {
      if forall step: Step :: !step.Lock? ==> !Enabled(s, step) { RestIsEnd(s); }
    } else {
      StepInv(s, steps[0]);
      StepDescends(s, steps[0]);
      TransferEnds(Apply(s, steps[0]), steps[1..]);
    }
  }

  lemma StepDescends(s: State, step: Step)
    requires Inv(s) && Enabled(s, step) && !step.Lock?
    ensures Ahead(Apply(s, step)) < Ahead(s) && Order(Apply(s, step)) == Order(s)
  {
    Progress(s);
  }
}
