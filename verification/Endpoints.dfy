/** The state of one message distributor as a value, and what each atomic step does to it.
    A semaphore object outlives its entry in the map (a receiver that waits on it keeps the pointer),
    so semaphores are numbered in creation order and the map holds their numbers. Each one remembers the
    id that it was created for, which no step looks at. */
module Endpoints {
  import opened Bytes
  import opened Codec

  datatype Semaphore = Semaphore(owner: int, count: nat)

  datatype Endpoint = Endpoint(
    counter: int,                      // mfsockid
    connectQueue: seq<int>, connectSem: nat,
    acceptSem: nat,
    sems: seq<Semaphore>,
    semMap: map<int, nat>,
    queueMap: map<int, seq<Bytes>>,
    statusMap: map<int, int>)

  const INIT: Endpoint := Endpoint(0, [], 0, 0, [], map[], map[], map[])

  /** connect and accept, once they know the id: a new semaphore, queue and status. */
  function Register(e: Endpoint, id: int): Endpoint {
    e.(sems := e.sems + [Semaphore(id, 0)],
       semMap := e.semMap[id := |e.sems|],
       queueMap := e.queueMap[id := []],
       statusMap := e.statusMap[id := 1])
  }

  function Post(e: Endpoint, h: nat): Endpoint
    requires h < |e.sems|
  { e.(sems := e.sems[h := e.sems[h].(count := e.sems[h].count + 1)]) }

  /** close, without the frame to the peer; a second close changes nothing. */
  function CloseSocket(e: Endpoint, id: int): Endpoint
    requires Consistent(e)
  {
    if id !in e.semMap then e
    else Post(e, e.semMap[id]).(semMap := e.semMap - {id}, queueMap := e.queueMap - {id},
                                statusMap := e.statusMap[id := 0])
  }

  /** What listen does with a frame. */
  function OnFrame(e: Endpoint, f: Frame): Endpoint
    requires Consistent(e)
  {
    match f
    case Create => e.(acceptSem := e.acceptSem + 1)
    case Accepted(id) => e.(connectQueue := e.connectQueue + [id], connectSem := e.connectSem + 1)
    case Sock(id, p) =>
      if id !in e.semMap then e
      else Post(e, e.semMap[id]).(queueMap := e.queueMap[id := e.queueMap[id] + [p]])
    case Close(id) => CloseSocket(e, id)
  }

  function Grab(e: Endpoint, h: nat): Endpoint
    requires h < |e.sems| && e.sems[h].count > 0
  { e.(sems := e.sems[h := e.sems[h].(count := e.sems[h].count - 1)]) }

  /** recv from the moment its semaphore lets it through: None when the socket was closed meanwhile. */
  function Wake(e: Endpoint, id: int, h: nat): (Endpoint, Option<Bytes>)
    requires h < |e.sems| && e.sems[h].count > 0
    requires id in e.statusMap && e.statusMap[id] != 0 ==> id in e.queueMap && e.queueMap[id] != []
  {
    var e1 := Grab(e, h);
    if id !in e.statusMap || e.statusMap[id] == 0 then (e1.(statusMap := e.statusMap - {id}), None)
    else (e1.(queueMap := e.queueMap[id := e.queueMap[id][1..]]), Some(e.queueMap[id][0]))
  }

  /** connect from the moment its semaphore lets it through: the head of the queue. */
  function TakeConnection(e: Endpoint): (Endpoint, int)
    requires e.connectSem > 0 && e.connectQueue != []
  {
    (e.(connectSem := e.connectSem - 1, connectQueue := e.connectQueue[1..]), e.connectQueue[0])
  }

  /** The skip loop of accept. */
  function NextFree(live: set<int>, k: int): (r: int)
    ensures k <= r && r !in live
    ensures forall j :: k <= j < r ==> j in live
    decreases |From(live, k)|
  {
    if k in live then
      StepsLeft(live, k);
      NextFree(live, k + 1)
    else k
  }

  function From(live: set<int>, k: int): set<int> { set x | x in live && k <= x }

  lemma StepsLeft(live: set<int>, k: int)
    requires k in live
    ensures |From(live, k + 1)| < |From(live, k)|
  {
    assert From(live, k) == From(live, k + 1) + {k};
  }

  function NextId(e: Endpoint): int { NextFree(e.semMap.Keys, e.counter + 1) }

  // ---- what every step keeps ----

  /** The maps agree with one another, and every mailbox semaphore counts its queue. */
  ghost predicate Consistent(e: Endpoint) {
    && e.connectSem == |e.connectQueue|
    && e.semMap.Keys == e.queueMap.Keys
    && (forall i :: i in e.semMap ==> e.semMap[i] < |e.sems| && e.sems[e.semMap[i]] == Semaphore(i, |e.queueMap[i]|))
    && (forall i :: i in e.semMap ==> i in e.statusMap)
    && (forall i :: i in e.statusMap ==> e.statusMap[i] == if i in e.semMap then 1 else 0)
  }

  /** All that the endpoint keeps about one id. */
  datatype Socket = Socket(sem: Option<Semaphore>, queue: Option<seq<Bytes>>, status: Option<int>)

  function View(e: Endpoint, id: int): Socket {
    Socket(if id in e.semMap && e.semMap[id] < |e.sems| then Some(e.sems[e.semMap[id]]) else None,
           if id in e.queueMap then Some(e.queueMap[id]) else None,
           if id in e.statusMap then Some(e.statusMap[id]) else None)
  }

  lemma RegisterConsistent(e: Endpoint, id: int)
    requires Consistent(e)
    ensures Consistent(Register(e, id))
    ensures View(Register(e, id), id) == Socket(Some(Semaphore(id, 0)), Some([]), Some(1))
    ensures forall j :: j != id ==> View(Register(e, id), j) == View(e, j)
  {}

  /** close leaves one post more than the messages it discards, so a waiting receiver wakes;
      every other socket keeps its semaphore, queue and status. */
  lemma CloseSocketConsistent(e: Endpoint, id: int)
    requires Consistent(e)
    ensures Consistent(CloseSocket(e, id))
    ensures id in e.semMap ==>
      CloseSocket(e, id).sems[e.semMap[id]].count == |e.queueMap[id]| + 1 && CloseSocket(e, id).statusMap[id] == 0
    ensures CloseSocket(CloseSocket(e, id), id) == CloseSocket(e, id)
    ensures forall j :: j != id ==> View(CloseSocket(e, id), j) == View(e, j)
  {}

  lemma OnFrameConsistent(e: Endpoint, f: Frame)
    requires Consistent(e)
    ensures Consistent(OnFrame(e, f))
    ensures |OnFrame(e, f).sems| == |e.sems| && OnFrame(e, f).counter == e.counter
    ensures forall j :: f.Create? || j != f.id ==> View(OnFrame(e, f), j) == View(e, j)
  {
    if f.Close? { CloseSocketConsistent(e, f.id); }
  }

  /** A late data or close frame, for a socket that is closed or was never opened, changes nothing at all. */
  lemma LateFrameIgnored(e: Endpoint, f: Frame)
    requires Consistent(e) && (f.Sock? || f.Close?)
    ensures f.id !in e.semMap <==> OnFrame(e, f) == e
  {
    if f.id in e.semMap { assert OnFrame(e, f).sems[e.semMap[f.id]] != e.sems[e.semMap[f.id]]; }
  }

  /** A receiver that its semaphore lets through pops a message exactly when the socket is live, and
      then the queue has one; otherwise it removes at most a closed socket's status. */
  lemma WakeConsistent(e: Endpoint, id: int, h: nat)
    requires Consistent(e) && h < |e.sems| && e.sems[h].count > 0 && e.sems[h].owner == id
    requires id in e.semMap ==> e.semMap[id] == h
    ensures id in e.statusMap && e.statusMap[id] != 0 ==> id in e.queueMap && e.queueMap[id] != []
    ensures Consistent(Wake(e, id, h).0)
    ensures Wake(e, id, h).1.Some? <==> id in e.semMap
    ensures forall j :: j != id ==> View(Wake(e, id, h).0, j) == View(e, j)
    ensures Wake(e, id, h).1.None? ==>
      Wake(e, id, h).0 == Grab(e, h).(statusMap := e.statusMap - {id})
  {}

  lemma TakeConnectionConsistent(e: Endpoint)
    requires Consistent(e) && e.connectSem > 0
    ensures e.connectQueue != [] && Consistent(TakeConnection(e).0)
  {}
}
