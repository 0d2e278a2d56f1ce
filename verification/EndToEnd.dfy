/** The image session over the multiplexer: what the server rebuilds from the messages that recv returns on the
    socket of the transmit threads, whatever else the two endpoints and their other sockets do. */
module EndToEnd {
  import opened Bytes
  import opened Session
  import opened Multiplexer
  import opened Guarantees
  import Transfer
  import Wire
  import WirePipes

  lemma PrefixFeeds(all: seq<Bytes>, got: seq<Bytes>)
    requires got <= all && !Feed(Idle([]), all).Undefined?
    ensures var s := Feed(Idle([]), got);
            && !s.Undefined? && Transfer.Done(s) <= Transfer.Done(Feed(Idle([]), all))
            && (got == all ==> s == Feed(Idle([]), all))
  {
    assert all == got + all[|got|..];
    FeedAppend(Idle([]), got, all[|got|..]);
    Transfer.DoneOnlyGrows(Feed(Idle([]), got), all[|got|..]);
  }

  lemma SessionPart(got: seq<Bytes>, hello: Bytes, lang: Lang, jobs: seq<Job>)
    requires AllGood(jobs) && AllInStep(lang, jobs)
    requires got != [] && got <= [hello] + SessionMessages(lang, jobs)
    ensures var s := Feed(Idle([]), got[1..]);
            && !s.Undefined? && Transfer.Done(s) <= Images(jobs)
            && (|got| == 1 + |SessionMessages(lang, jobs)| ==> s == Idle(Images(jobs)))
  {
    var all := SessionMessages(lang, jobs);
    SessionFeed(lang, [], jobs);
    hide Feed, SessionMessages, AllInStep;
    assert [] + Images(jobs) == Images(jobs);
    assert ([hello] + all)[1..] == all;
    assert got[1..] <= all;
    PrefixFeeds(all, got[1..]);
  }

  /** What the server has made of the messages that recv returned, the first of which is the login message. */
  ghost predicate Rebuilds(got: seq<Bytes>, images: seq<Image>, total: nat) {
    got != [] ==>
      var s := Feed(Idle([]), got[1..]);
      && !s.Undefined? && Transfer.Done(s) <= images
      && (|got| == 1 + total ==> s == Idle(images))
  }

  /** In every reachable state: if the connecting program has sent on a socket a login message and then any part of
      the messages of a session, and no message of that socket came before its registration, then the server that
      reads them has rebuilt exactly the first images of the session, in order, and all of them once it has read all
      messages. */
  lemma SessionOverMultiplexer(w: World, id: int, hello: Bytes, lang: Lang, jobs: seq<Job>)
    requires Reachable(w) && At(w.a.early, id) == []
    requires AllGood(jobs) && AllInStep(lang, jobs)
    requires At(w.a.sent, id) <= [hello] + SessionMessages(lang, jobs)
    ensures Rebuilds(At(w.a.got, id), Images(jobs), |SessionMessages(lang, jobs)|)
  {
    hide Feed, SessionMessages, AllInStep, Guarantees.Reachable;
    FifoPipes(w, Acceptor, id);
    var got := At(w.a.got, id);
    assert [] + got == got;
    assert got == At(w.a.sent, id)[..|got|];
    if got != [] { SessionPart(got, hello, lang, jobs); }
  }

  /** Under the discipline no message comes too early, and the same holds on every socket. */
  lemma SessionUnderDiscipline(w: World, id: int, hello: Bytes, lang: Lang, jobs: seq<Job>)
    requires DisciplinedReachable(w)
    requires AllGood(jobs) && AllInStep(lang, jobs)
    requires At(w.a.sent, id) <= [hello] + SessionMessages(lang, jobs)
    ensures Rebuilds(At(w.a.got, id), Images(jobs), |SessionMessages(lang, jobs)|)
  {
    hide Feed, SessionMessages, AllInStep, DisciplinedReachable;
    DisciplinedPipesLoseNothing(w, Acceptor, id);
    if At(w.a.got, id) != [] { SessionPart(At(w.a.got, id), hello, lang, jobs); }
  }

  lemma LongerPrefix(sent: seq<Bytes>, first: seq<Bytes>, log: seq<Bytes>, all: seq<Bytes>)
    requires sent <= first + log && log <= all
    ensures sent <= first + all
  {
    assert first + all == first + log + all[|log|..];
  }

  /** Any number of C++ transmit threads that share the socket under sendLock, in any run: the server rebuilds their
      images in lock order, all of them once the lock is free and it has read what they sent. */
  lemma ThreadsOverMultiplexer(w: World, id: int, hello: Bytes, s: Transfer.State)
    requires Guarantees.Reachable(w) && At(w.a.early, id) == []
    requires Transfer.Reachable(s) && At(w.a.sent, id) <= [hello] + s.log
    ensures AllGood(s.jobs) && Rebuilds(At(w.a.got, id), Transfer.Order(s), |SessionMessages(Cpp, s.jobs)|)
    ensures s.holder == None ==> s.log == SessionMessages(Cpp, s.jobs)
  {
    hide Rebuilds, Transfer.Reachable, Guarantees.Reachable, AllInStep, AllGood, SessionMessages;
    Transfer.SentInLockOrder(s);
    LongerPrefix(At(w.a.sent, id), [hello], s.log, SessionMessages(Cpp, s.jobs));
    SessionOverMultiplexer(w, id, hello, Cpp, s.jobs);
  }

  /** The same for the bytes in the channels: whatever frames the code of either connector builds, the server gets
      from recv what rebuilds the images that the connecting program gave to send. */
  lemma SessionOverTheWire(lang: Lang, inputs: seq<Wire.Input>, id: int, hello: Bytes,
                           sender: Lang, jobs: seq<Job>)
    requires Wire.NetCanRun(Wire.NetInit(lang), inputs)
    requires WirePipes.Trace(Wire.NetInit(lang), inputs, WirePipes.Early, Acceptor, id) == []
    requires AllGood(jobs) && AllInStep(sender, jobs)
    requires WirePipes.Trace(Wire.NetInit(lang), inputs, WirePipes.Given, Acceptor, id)
          <= [hello] + SessionMessages(sender, jobs)
    ensures Rebuilds(WirePipes.Trace(Wire.NetInit(lang), inputs, WirePipes.Returned, Acceptor, id), Images(jobs),
                     |SessionMessages(sender, jobs)|)
  {
    var n := Wire.NetInit(lang);
    WirePipes.BytesArriveInOrder(lang, inputs, Acceptor, id);
    hide Feed, SessionMessages, AllInStep, WirePipes.Trace, Wire.NetCanRun;
    var got := WirePipes.Trace(n, inputs, WirePipes.Returned, Acceptor, id);
    assert [] + got == got;
    if got != [] { SessionPart(got, hello, sender, jobs); }
  }
}
