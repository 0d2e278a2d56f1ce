/** The Java message distributor where it differs from the C++ one: it decodes with split and parseInt, copies
    byte by byte, answers 0 from recv, pads its control frames with zeros, and can close everything at once. */
module JavaSide {
  import opened Bytes
  import opened Codec
  import opened Endpoints
  import opened Distributor

  lemma SomeElement(s: set<int>)
    ensures s == {} || exists i :: i in s
  {
    if forall i :: i !in s { assert s == {}; }
  }

  /** Different sockets have different close frames: the C++ side reads the id back. */
  lemma JavaCloseInjective(a: nat, b: nat)
    requires a < NINE_DIGITS && b < NINE_DIGITS && JavaClose(a) == JavaClose(b)
    ensures a == b
  {
    CppReadsJava(a, []);
    CppReadsJava(b, []);
  }

  /** The ids of a set, in some order, each once. */
  ghost predicate OnceEach(told: seq<int>, ids: set<int>) {
    && (forall id :: id in told <==> id in ids)
    && (forall j, k :: 0 <= j < k < |told| ==> told[j] != told[k])
    && (forall k :: 0 <= k < |told| ==> 0 <= told[k] < NINE_DIGITS)
  }

  function CloseFrames(told: seq<int>): (frames: seq<Bytes>)
    requires forall k :: 0 <= k < |told| ==> 0 <= told[k] < NINE_DIGITS
    ensures |frames| == |told| && forall k :: 0 <= k < |told| ==> frames[k] == JavaClose(told[k])
  {
    seq(|told|, k requires 0 <= k < |told| => JavaClose(told[k]))
  }

  lemma OnceMore(told: seq<int>, ids: set<int>, id: nat)
    requires OnceEach(told, ids) && id !in ids && id < NINE_DIGITS
    ensures OnceEach(told + [id], ids + {id})
    ensures CloseFrames(told + [id]) == CloseFrames(told) + [JavaClose(id)]
  {
    hide JavaClose;
    assert forall x :: x in told + [id] <==> x in told || x == id;
  }

  lemma {:induction false} AsManyTold(told: seq<int>, ids: set<int>)
    requires (forall id :: id in told <==> id in ids) && forall j, k :: 0 <= j < k < |told| ==> told[j] != told[k]
    ensures |told| == |ids|
    decreases |told|
  {
    if told == [] {
      assert ids == {} by { forall x ensures x !in ids { assert x in told <==> x in ids; } }
    } else {
      var n := |told| - 1;
      var rest, id := told[..n], told[n];
      forall x ensures x in rest <==> x in ids - {id} {
        if x in rest { var k :| 0 <= k < n && rest[k] == x; assert told[k] != told[n]; }
        if x in told && x != id { var k :| 0 <= k < |told| && told[k] == x; assert rest[k] == x; }
      }
      AsManyTold(rest, ids - {id});
    }
  }

  /** Then there are as many frames as ids, every id has its frame among them, and every frame its id. */
  lemma EachToldOnce(told: seq<int>, ids: set<int>)
    requires OnceEach(told, ids)
    ensures |CloseFrames(told)| == |told| == |ids|
    ensures forall id :: id in ids ==> exists k :: 0 <= k < |told| && told[k] == id
    ensures forall k :: 0 <= k < |told| ==> told[k] in ids
  {
    AsManyTold(told, ids);
  }

  /** So no two of those frames are the same. */
  lemma FramesDiffer(told: seq<int>, ids: set<int>, j: nat, k: nat)
    requires OnceEach(told, ids) && j < k < |told|
    ensures CloseFrames(told)[j] != CloseFrames(told)[k]
  {
    if CloseFrames(told)[j] == CloseFrames(told)[k] { JavaCloseInjective(told[j], told[k]); }
  }

  class JavaDistributor {
    var mfsockid: int
    var connectQueue: seq<int>
    var connectSem: nat
    var acceptSem: nat
    var sems: seq<Semaphore>
    var semMap: map<int, nat>
    var queueMap: map<int, seq<Bytes>>
    var statusMap: map<int, int>
    var channel: seq<Bytes>

    ghost function State(): Endpoint
      reads this
    {
      Endpoint(mfsockid, connectQueue, connectSem, acceptSem, sems, semMap, queueMap, statusMap)
    }

    ghost predicate Valid()
      reads this
    {
      Consistent(State()) && forall id :: id in semMap ==> 0 <= id < NINE_DIGITS
    }

    constructor ()
      ensures Valid() && State() == INIT && channel == []
    {
      mfsockid, connectQueue, connectSem, acceptSem := 0, [], 0, 0;
      sems, semMap, queueMap, statusMap := [], map[], map[], map[];
      channel := [];
    }

    /** A data frame whose id is not live, well-formed or not behind the id. */
    predicate NamesDeadSocket(buf: Bytes)
      reads this
    {
      JavaSockId(buf).Some? && JavaSockId(buf).value !in semMap
    }

    /** One received message. A dead socket is refused before the length of the payload is looked at. */
    method Listen(buf: array<byte>, ret: nat) returns (r: int)
      requires Valid() && ret <= buf.Length
      requires DecodeJava(buf[..], ret) != Undefined || NamesDeadSocket(buf[..])
      modifies this
      ensures Valid() && channel == old(channel)
      ensures match DecodeJava(old(buf[..]), ret)
              case Good(f) =>
                State() == OnFrame(old(State()), f) && r == if f.Sock? && f.id !in old(semMap) then -1 else 0
              case _ => State() == old(State()) && r == -1
    {
      hide DecodeJava, JavaSockId;
      SockIdIsDecoded(buf[..], ret);
      if NamesDeadSocket(buf[..]) {
        return -1;
      }
      var d := ReadFrameJava(buf, ret);
      match d {
        case Good(Create) =>
          acceptSem := acceptSem + 1;
        case Good(Accepted(id)) =>
          connectQueue := connectQueue + [id];
          connectSem := connectSem + 1;
        case Good(Sock(id, content)) =>
          r := Store(id, content);
          return;
        case Good(Close(id)) =>
          var _ := CloseLocal(id);
        case _ =>
          return -1;
      }
      return 0;
    }

    /** A data frame, once it is decoded. */
    method Store(id: int, content: Bytes) returns (r: int)
      requires Valid()
      modifies this
      ensures Valid() && channel == old(channel)
      ensures State() == OnFrame(old(State()), Sock(id, content))
      ensures r == if id in old(semMap) then 0 else -1
    {
      if id !in semMap {
        return -1;
      }
      OnFrameConsistent(State(), Sock(id, content));
      queueMap := queueMap[id := queueMap[id] + [content]];
      var h := semMap[id];
      sems := sems[h := sems[h].(count := sems[h].count + 1)];
      return 0;
    }

    /** recv, from the moment its semaphore lets it through. A missing status is a NullPointerException,
        which recv catches, and then it answers 0 as it does after a message. */
    method RecvWake(sockID: int, h: nat, buf: array<byte>, size: nat) returns (r: int)
      requires Valid() && h < |sems| && sems[h].count > 0 && sems[h].owner == sockID
      requires sockID in semMap ==> semMap[sockID] == h
      requires size <= buf.Length
      modifies this, buf
      ensures Valid() && channel == old(channel)
      ensures State() ==
        if sockID !in old(semMap) then Grab(old(State()), h).(statusMap := old(statusMap) - {sockID})
        else Grab(old(State()), h).(queueMap := old(queueMap)[sockID := old(queueMap[sockID][1..])])
      ensures r == if sockID in old(statusMap) && sockID !in old(semMap) then -1 else 0
      ensures sockID !in old(semMap) ==> buf[..] == old(buf[..])
      ensures sockID in old(semMap) ==>
        var m := old(queueMap[sockID][0]);
        forall i :: 0 <= i < buf.Length ==> buf[i] == if i < size && i < |m| then m[i] else old(buf[i])
    {
      WakeConsistent(State(), sockID, h);
      sems := sems[h := sems[h].(count := sems[h].count - 1)];
      if sockID !in statusMap {
        assert statusMap - {sockID} == statusMap;
        return 0;
      }
      if statusMap[sockID] == 0 {
        statusMap := statusMap - {sockID};
        return -1;
      }
      var recvByte := queueMap[sockID][0];
      queueMap := queueMap[sockID := queueMap[sockID][1..]];
      CopyOut(recvByte, buf, size);
      return 0;
    }

    /** The copy loop of recv. */
    method CopyOut(recvByte: Bytes, buf: array<byte>, size: nat)
      requires size <= buf.Length
      modifies buf
      ensures forall i :: 0 <= i < buf.Length ==>
        buf[i] == if i < size && i < |recvByte| then recvByte[i] else old(buf[i])
    {
      var getSize := if |recvByte| < size then |recvByte| else size;
      for i := 0 to getSize
        invariant forall k :: 0 <= k < buf.Length ==> buf[k] == if k < i then recvByte[k] else old(buf[k])
      {
        buf[i] := recvByte[i];
      }
    }

    method CloseLocal(sockID: int) returns (r: int)
      requires Valid()
      modifies this
      ensures Valid() && State() == CloseSocket(old(State()), sockID) && channel == old(channel)
      ensures r == if sockID in old(semMap) then 0 else -1
    {
      CloseSocketConsistent(State(), sockID);
      if sockID !in semMap {
        return -1;
      }
      var h := semMap[sockID];
      statusMap := statusMap[sockID := 0];
      sems := sems[h := sems[h].(count := sems[h].count + 1)];
      semMap := semMap - {sockID};
      queueMap := queueMap - {sockID};
      return 0;
    }

    method Close(sockID: int, passive: bool) returns (r: int)
      requires Valid()
      modifies this
      ensures Valid() && State() == CloseSocket(old(State()), sockID)
      ensures r == if sockID in old(semMap) then 0 else -1
      ensures channel == old(channel) + if sockID in old(semMap) && !passive then [JavaClose(sockID)] else []
    {
      r := CloseLocal(sockID);
      if r == 0 && !passive {
        channel := channel + [JavaClose(sockID)];
      }
    }

    /** One turn of the loop of end. */
    method CloseRecorded(i: int)
      requires Valid() && i in statusMap
      modifies this
      ensures Valid() && semMap.Keys == old(semMap.Keys) - {i} && statusMap.Keys == old(statusMap.Keys)
      ensures channel == old(channel) + if i in old(semMap) then [JavaClose(i)] else []
    {
      var _ := Close(i, false);
    }

    /** Closes every socket on record: none is left live, and the peer is told exactly once about each that was. */
    method End()
      requires Valid()
      modifies this
      ensures Valid() && semMap == map[] && queueMap == map[]
      ensures statusMap.Keys == old(statusMap.Keys) && forall id :: id in statusMap ==> statusMap[id] == 0
      ensures exists told :: OnceEach(told, old(semMap.Keys)) && channel == old(channel) + CloseFrames(told)
    {
      var sockSet := statusMap.Keys;
      ghost var told: seq<int> := [];
      assert CloseFrames(told) == [];
      hide CloseFrames, JavaClose;
      assert forall id :: id in semMap ==> id in sockSet;
      while sockSet != {}
        invariant Valid() && statusMap.Keys == old(statusMap.Keys)
        invariant semMap.Keys <= sockSet <= statusMap.Keys && semMap.Keys <= old(semMap.Keys)
        invariant OnceEach(told, old(semMap.Keys) - semMap.Keys) && channel == old(channel) + CloseFrames(told)
        decreases sockSet
      {
        SomeElement(sockSet);
        var i :| i in sockSet;
        ghost var live := semMap.Keys;
        CloseRecorded(i);
        if i in live {
          OnceMore(told, old(semMap.Keys) - live, i);
          assert old(semMap.Keys) - live + {i} == old(semMap.Keys) - semMap.Keys;
          told := told + [i];
        }
        sockSet := sockSet - {i};
      }
      assert semMap.Keys == {} && queueMap.Keys == {};
      assert old(semMap.Keys) - semMap.Keys == old(semMap.Keys);
    }
  }
}
