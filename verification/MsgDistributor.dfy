/** The C++ message distributor, in the form the source has. Calls that block are split where they block or
    where the listener can run in between; each part is one atomic step of the multiplexer. `channel` has
    every message handed to mfsend, in order, and `stack` parameters stand for uninitialised stack memory. */
module Distributor {
  import opened Bytes
  import opened Codec
  import opened Endpoints

  class MsgDistributor {
    var mfsockid: int
    var connectQueue: seq<int>
    var connectSem: nat
    var acceptSem: nat
    var sems: seq<Semaphore>
    var semMap: map<int, nat>
    var queueMap: map<int, seq<Bytes>>
    var statusMap: map<int, int>
    var channel: seq<Bytes>

    ghost function State(): Endpoint
      reads this
    {
      Endpoint(mfsockid, connectQueue, connectSem, acceptSem, sems, semMap, queueMap, statusMap)
    }

    /** Ids have at most nine digits, so that the divisor loops stay within 32 bits. */
    ghost predicate Valid()
      reads this
    {
      Consistent(State()) && forall id :: id in semMap ==> 0 <= id < NINE_DIGITS
    }

    constructor ()
      ensures Valid() && State() == INIT && channel == []
    {
      mfsockid, connectQueue, connectSem, acceptSem := 0, [], 0, 0;
      sems, semMap, queueMap, statusMap := [], map[], map[], map[];
      channel := [];
    }

    /** One received message: `ret` bytes at the start of the buffer, then whatever was there before. */
    method Listen(buffer: array<byte>, ret: nat) returns (r: int)
      requires Valid() && ret <= buffer.Length
      requires DecodeCpp(buffer[..], ret) != Undefined
      modifies this, buffer
      ensures Valid() && channel == old(channel)
      ensures match DecodeCpp(old(buffer[..]), ret)
              case Good(f) =>
                State() == OnFrame(old(State()), f) && r == if f.Sock? && f.id !in old(semMap) then -1 else 0
              case _ => State() == old(State()) && r == -1
    {
      var d := ReadFrame(buffer, ret);
      match d {
        case Good(Create) =>
          acceptSem := acceptSem + 1;
        case Good(Accepted(id)) =>
          connectQueue := connectQueue + [id];
          connectSem := connectSem + 1;
        case Good(Sock(id, content)) =>
          r := Store(id, content);
          return;
        case Good(Close(id)) =>
          var _ := CloseLocal(id);
        case _ =>
          return -1;
      }
      return 0;
    }

    /** A data frame, once it is decoded. */
    method Store(id: int, content: Bytes) returns (r: int)
      requires Valid()
      modifies this
      ensures Valid() && channel == old(channel)
      ensures State() == OnFrame(old(State()), Sock(id, content))
      ensures r == if id in old(semMap) then 0 else -1
    {
      if id !in semMap {
        return -1;
      }
      OnFrameConsistent(State(), Sock(id, content));
      queueMap := queueMap[id := queueMap[id] + [content]];
      PostSem(semMap[id]);
      return 0;
    }

    method PostSem(h: nat)
      requires h < |sems|
      modifies this`sems
      ensures sems == old(sems)[h := old(sems)[h].(count := old(sems)[h].count + 1)]
    {
      sems := sems[h := sems[h].(count := sems[h].count + 1)];
    }

    /** connect, up to the wait for the answer. */
    method ConnectRequest(stack: Bytes)
      requires Valid() && |stack| == HEADER_SIZE
      modifies this`channel
      ensures channel == old(channel) + [CppCreate(stack)]
    {
      channel := channel + [CppCreate(stack)];
    }

    /** connect, from the moment connect_sem lets it through. */
    method ConnectWake() returns (newID: int)
      requires Valid() && connectSem > 0
      modifies this`connectSem, this`connectQueue
      ensures Valid() && connectQueue == old(connectQueue)[1..] && (State(), newID) == TakeConnection(old(State()))
    {
      TakeConnectionConsistent(State());
      connectSem := connectSem - 1;
      newID := connectQueue[0];
      connectQueue := connectQueue[1..];
    }

    /** The end of connect and of accept. */
    method RegisterConnection(newID: int)
      requires Valid() && 0 <= newID < NINE_DIGITS
      modifies this
      ensures Valid() && State() == Register(old(State()), newID) && channel == old(channel)
    {
      RegisterConsistent(State(), newID);
      queueMap := queueMap[newID := []];
      semMap := semMap[newID := |sems|];
      sems := sems + [Semaphore(newID, 0)];
      statusMap := statusMap[newID := 1];
    }

    /** accept under id_lock: the skip loop and the reply. */
    method AcceptReply(stack: Bytes) returns (newID: int)
      requires Valid() && |stack| == HEADER_SIZE && 0 <= mfsockid && NextId(State()) < NINE_DIGITS
      modifies this`mfsockid, this`channel
      ensures Valid() && newID == NextId(old(State())) && newID !in semMap && newID > old(mfsockid)
      ensures forall j :: old(mfsockid) < j < newID ==> j in semMap
      ensures State() == old(State()).(counter := newID)
      ensures channel == old(channel) + [CppAccepted(newID, stack)]
    {
      mfsockid := mfsockid + 1;
      while mfsockid in semMap
        invariant old(mfsockid) < mfsockid && channel == old(channel)
        invariant NextFree(semMap.Keys, mfsockid) == NextId(old(State()))
        decreases |From(semMap.Keys, mfsockid)|
      {
        StepsLeft(semMap.Keys, mfsockid);
        mfsockid := mfsockid + 1;
      }
      newID := mfsockid;
      channel := channel + [CppAccepted(newID, stack)];
    }

    method Send(sock: int, buffer: array<byte>, size: nat) returns (ret: int)
      requires Valid() && 0 < size <= buffer.Length
      modifies this`channel
      ensures sock !in semMap ==> ret == -1 && channel == old(channel)
      ensures sock in semMap ==>
        channel == old(channel) + [SockFrame(sock, buffer[..size])] && ret == |SockFrame(sock, buffer[..size])|
    {
      if sock !in semMap {
        return -1;
      }
      var content := BuildSock(sock, buffer, size);
      channel := channel + [content[..]];
      ret := content.Length;
    }

    /** recv, up to the wait: a live socket has a semaphore, its own, with a permit for each queued message. */
    method RecvBegin(sock: int) returns (h: Option<nat>)
      requires Valid()
      ensures h.Some? <==> sock in statusMap && statusMap[sock] == 1
      ensures h.Some? ==>
        sock in queueMap && h.value < |sems| && sems[h.value] == Semaphore(sock, |queueMap[sock]|)
    {
      if sock !in semMap {
        return None;
      }
      h := Some(semMap[sock]);
    }

    /** recv, from the moment its semaphore lets it through; the socket may have been closed meanwhile. */
    method RecvWake(sock: int, h: nat, buffer: array<byte>, size: nat) returns (r: int)
      requires Valid() && h < |sems| && sems[h].count > 0 && sems[h].owner == sock
      requires sock in semMap ==> semMap[sock] == h
      requires size <= buffer.Length
      modifies this, buffer
      ensures Valid() && channel == old(channel)
      ensures old(sock in semMap ==> queueMap[sock] != [])
      ensures State() ==
        if sock in old(semMap) then Grab(old(State()), h).(queueMap := old(queueMap)[sock := old(queueMap[sock][1..])])
        else Grab(old(State()), h).(statusMap := old(statusMap) - {sock})
      ensures sock !in old(semMap) ==> r == -1 && buffer[..] == old(buffer[..])
      ensures sock in old(semMap) ==> r == 1
      ensures sock in old(semMap) ==>
        var m := old(queueMap[sock][0]);
        forall i :: 0 <= i < buffer.Length ==> buffer[i] == if i < size && i < |m| then m[i] else old(buffer[i])
    {
      WakeConsistent(State(), sock, h);
      sems := sems[h := sems[h].(count := sems[h].count - 1)];
      if sock !in statusMap || statusMap[sock] == 0 {
        statusMap := statusMap - {sock};
        return -1;
      }
      var content := queueMap[sock][0];
      queueMap := queueMap[sock := queueMap[sock][1..]];
      var n := if |content| < size then |content| else size;
      forall i | 0 <= i < n { buffer[i] := content[i]; }
      return 1;
    }

    /** close without the frame to the peer. */
    method CloseLocal(sock: int) returns (r: int)
      requires Valid()
      modifies this
      ensures Valid() && State() == CloseSocket(old(State()), sock) && channel == old(channel)
      ensures r == if sock in old(semMap) then 0 else -1
    {
      CloseSocketConsistent(State(), sock);
      if sock !in semMap {
        return -1;
      }
      var h := semMap[sock];
      statusMap := statusMap[sock := 0];
      PostSem(h);
      semMap := semMap - {sock};
      queueMap := queueMap - {sock};
      return 0;
    }

    method Close(sock: int, passive: bool, stack: Bytes) returns (r: int)
      requires Valid() && |stack| == HEADER_SIZE
      modifies this
      ensures Valid() && State() == CloseSocket(old(State()), sock)
      ensures r == if sock in old(semMap) then 0 else -1
      ensures channel == old(channel) + if sock in old(semMap) && !passive then [CppClose(sock, stack)] else []
    {
      r := CloseLocal(sock);
      if r == 0 && !passive {
        channel := channel + [CppClose(sock, stack)];
      }
    }
  }
}
