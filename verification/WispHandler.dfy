/** `Server.onMessage` and what it calls, as the imperative code runs them on the server's fields.
    Every method is proved to be a run of the server machine, and its contract says
    which message does what. */
module WispHandler {
  import opened ByteSeq
  import opened WispFrame
  import opened WispServer
  import opened WispPackets

  /** How the dial function ended; `wisp.Blocked` marks a refusal by the Agent's policy. */
  datatype DialResult = Connected | PolicyRefused | Unreached

  class Handler {
    var handshaken: bool
    var cancelled: bool
    var streams: map<StreamId, nat>
    var all: seq<Stream>
    var sent: seq<Frame>

    ghost function Snapshot(): Server
      reads this
    {
      Server(handshaken, cancelled, streams, all, sent)
    }

    constructor ()
      ensures Snapshot() == START && Inv(Snapshot())
      ensures !handshaken && !cancelled && streams == map[] && all == [] && sent == []
    {
      handshaken, cancelled, streams, all, sent := false, false, map[], [], [];
    }

    method SendFrame(kind: byte, stream: StreamId, payload: Bytes)
      modifies this`sent
      ensures Reaches(old(Snapshot()), Snapshot())
      ensures sent == old(sent) + [Frame(kind, stream, payload)]
    {
      sent := sent + [Frame(kind, stream, payload)];
      ReachesStep(old(Snapshot()), Reply(Frame(kind, stream, payload)));
    }

    /** `current.cancel()` by the first caller of the once. */
    method CancelStream(i: nat, notify: bool, reason: byte)
      requires i < |all|
      modifies this`all
      ensures Snapshot() == Apply(old(Snapshot()), Cancel(i, notify, reason))
    {
      if all[i].phase == Phase.Open {
        all := all[i := all[i].(phase := Cancelled, notify := notify, reason := reason)];
      }
      assert all == old(all)[i := all[i]];
    }

    /** Closing the connection under `connMu`. */
    method ReleaseConnection(i: nat)
      requires i < |all|
      modifies this`all
      ensures Snapshot() == Apply(old(Snapshot()), Release(i))
    {
      var current := all[i];
      if current.phase == Deleted {
        if current.conn {
          current := current.(releases := current.releases + 1);
        }
        all := all[i := current.(phase := Released)];
      }
      assert all == old(all)[i := all[i]];
    }

    /** The dial function returns to `connect`. */
    method DialEnds(i: nat, ok: bool)
      requires i < |all|
      modifies this`all
      ensures Snapshot() == Apply(old(Snapshot()), DialReturns(i, ok))
    {
      if all[i].dial.Dialing? {
        all := all[i := all[i].(dial := Dialed(ok))];
      }
      assert all == old(all)[i := all[i]];
    }

    /** `connect` under `connMu`: a connection that comes too late is closed, any other is stored. */
    method StoreConnection(i: nat)
      requires i < |all|
      modifies this`all
      ensures Snapshot() == Apply(old(Snapshot()), Step.Publish(i))
    {
      var current := all[i];
      if current.dial.Dialed? {
        var connection := current.dial.ok;
        var done := cancelled || current.phase != Phase.Open;
        if done && connection {
          current := current.(releases := current.releases + 1);
          connection := false;
        }
        all := all[i := current.(dial := Published(current.dial.ok), conn := connection)];
      }
      assert all == old(all)[i := all[i]];
    }

    /** `delete(server.streams, id)` under the server's lock. */
    method Unlist(i: nat)
      requires i < |all|
      modifies this`all, this`streams
      ensures Snapshot() == Apply(old(Snapshot()), Delete(i))
    {
      if all[i].phase == Cancelled {
        streams := streams - {all[i].id};
        all := all[i := all[i].(phase := Deleted)];
      }
      assert all == old(all)[i := all[i]];
    }

    method Announce(i: nat)
      requires i < |all|
      modifies this`all, this`sent
      ensures Snapshot() == Apply(old(Snapshot()), Notice(i))
    {
      var current := all[i];
      if current.phase == Released {
        if current.notify {
          sent := sent + [Frame(CLOSE, current.id, [current.reason])];
        }
        all := all[i := current.(phase := Done, notices := current.notices + if current.notify then 1 else 0)];
      }
      assert all == old(all)[i := all[i]];
    }

    /** `stream.close`: the first caller runs the body of the once, a later one returns when it is done. */
    method CloseStream(i: nat, notify: bool, reason: byte)
      requires i < |all|
      modifies this`all, this`streams, this`sent
      ensures Reaches(old(Snapshot()), Snapshot())
      ensures Snapshot() == CloseNow(old(Snapshot()), i, notify, reason)
    {
      CloseIsFour(Snapshot(), i, notify, reason);
      ReachesFour(Snapshot(), Cancel(i, notify, reason), Delete(i), Release(i), Notice(i));
      CancelStream(i, notify, reason);
      Unlist(i);
      ReleaseConnection(i);
      Announce(i);
    }

    /** One round of `Server.Close`'s loop, `start` being the state the loop began in. */
    method CloseNext(i: nat, ghost start: Server)
      requires i < |all| && Reaches(start, Snapshot())
      modifies this`all, this`streams, this`sent
      ensures Reaches(start, Snapshot())
      ensures old(sent) <= sent && |all| == |old(all)| && all[i].phase == Done
      ensures forall j :: 0 <= j < |all| && j != i ==> all[j] == old(all)[j]
    {
      CloseStream(i, false, CLOSE_VOLUNTARY);
      ReachesThrough(start, old(Snapshot()), Snapshot());
    }

    /** Close the streams of a snapshot of the table, in any order. */
    method CloseEach(snapshot: set<nat>)
      requires forall i :: i in snapshot ==> i < |all|
      modifies this`all, this`streams, this`sent
      ensures Reaches(old(Snapshot()), Snapshot())
      ensures old(sent) <= sent && |all| == |old(all)|
      ensures forall i :: 0 <= i < |all| && i in snapshot ==> all[i].phase == Done
      ensures forall i :: 0 <= i < |all| && i !in snapshot ==> all[i] == old(all)[i]
    {
      ghost var start := Snapshot();
      ReachesSelf(start);
      var todo := snapshot;
      while todo != {}
        invariant todo <= snapshot && Reaches(start, Snapshot())
        invariant old(sent) <= sent && |all| == |old(all)|
        invariant forall i :: 0 <= i < |all| && i in snapshot && i !in todo ==> all[i].phase == Done
        invariant forall i :: 0 <= i < |all| && i !in snapshot ==> all[i] == old(all)[i]
        decreases todo
      {
        var i :| i in todo;
        CloseNext(i, start);
        todo := todo - {i};
      }
    }

    /** `Server.Close`: cancel, take the table, close every stream in it.  Streams that another goroutine
        has already taken out of the table are left to it. */
    method CloseServer()
      requires Inv(Snapshot())
      modifies this
      ensures Inv(Snapshot()) && Reaches(old(Snapshot()), Snapshot())
      ensures cancelled && handshaken == old(handshaken) && old(sent) <= sent && streams == map[]
      ensures |all| == |old(all)|
      ensures forall i :: 0 <= i < |all| ==> if Listed(old(all)[i].phase) then all[i].phase == Done else all[i] == old(all)[i]
    {
      CancelContext();
      ghost var before := Snapshot();
      NumbersExact(before);
      CloseEach(set id | id in streams :: streams[id]);
      ReachesThrough(old(Snapshot()), before, Snapshot());
      ReachesInv(before, Snapshot());
      NothingListed(Snapshot());
    }

    method CancelContext()
      requires Inv(Snapshot())
      modifies this`cancelled
      ensures Inv(Snapshot()) && Reaches(old(Snapshot()), Snapshot()) && cancelled
    {
      cancelled := true;
      ReachesStep(old(Snapshot()), CancelServer);
      ReachesInv(old(Snapshot()), Snapshot());
    }

    /** One message from the data channel.  `sendOk` is the outcome of sending the allowance. */
    method OnMessage(data: Bytes, sendOk: bool)
      requires Inv(Snapshot())
      modifies this
      ensures Inv(Snapshot()) && Reaches(old(Snapshot()), Snapshot())
      // a malformed packet, a bad INFO or any stream packet before the handshake ends everything
      ensures Rejects(old(handshaken), data) ==>
        cancelled && streams == map[] && handshaken == old(handshaken) && old(sent) + [Frame(4, 0, [0x41])] <= sent
      // a good INFO completes the handshake once
      ensures !Rejects(old(handshaken), data) && Parse(data).frame.stream == 0 ==>
        handshaken && |all| == |old(all)| && (old(handshaken) ==> Snapshot() == old(Snapshot()))
      ensures !Rejects(old(handshaken), data) && Parse(data).frame.stream == 0 && !old(handshaken) && sendOk ==>
        Snapshot() == old(Snapshot()).(handshaken := true, sent := old(sent) + [Frame(3, 0, [64, 0, 0, 0])])
      // everything else is about one stream
      ensures !Rejects(old(handshaken), data) && Parse(data).frame.stream != 0 ==>
        Snapshot() == Handled(old(Snapshot()), Parse(data).frame)
      // DATA joins its stream's queue
      ensures forall id: StreamId, payload: Bytes :: IsData(data, id, payload) && old(handshaken) && id in old(streams) ==>
        |old(all[streams[id]].queue)| < 64 ==>
          |all| == |old(all)| && all[old(streams)[id]].queue == old(all[streams[id]].queue) + [payload]
    {
      forall id: StreamId, payload: Bytes | IsData(data, id, payload)
        ensures Parse(data) == Packet(Frame(2, id, payload))
      {
        ParseEncode(Frame(2, id, payload));
      }
      match Parse(data)
      case TooShort => Reject();
      case TooLong => Reject();
      case UnknownKind(_) => Reject();
      case Packet(packet) =>
        if packet.stream == 0 {
          HandleHandshake(packet, sendOk);
        } else if !handshaken {
          Reject();
        } else {
          OnStreamPacket(packet);
        }
    }

    method OnStreamPacket(packet: Frame)
      requires Inv(Snapshot()) && handshaken
      modifies this
      ensures Inv(Snapshot()) && Reaches(old(Snapshot()), Snapshot())
      ensures Snapshot() == Handled(old(Snapshot()), packet)
    {
      if packet.kind == CONNECT {
        if packet.stream in streams {
          SendFrame(CLOSE, packet.stream, [CLOSE_INVALID]);
        } else {
          OpenStream(packet);
        }
      } else if packet.kind == DATA {
        if packet.stream !in streams {
          SendFrame(CLOSE, packet.stream, [CLOSE_INVALID]);
        } else {
          Deliver(packet.stream, packet.payload);
        }
      } else if packet.kind == CLOSE {
        EndStream(packet.stream);
      } else {
        SendFrame(CLOSE, packet.stream, [CLOSE_INVALID]);
      }
    }

    /** CLOSE from the client: ends the stream if it is listed, and is ignored otherwise. */
    method EndStream(id: StreamId)
      requires Inv(Snapshot())
      modifies this
      ensures Inv(Snapshot()) && Reaches(old(Snapshot()), Snapshot())
      ensures Snapshot() == Handled(old(Snapshot()), Frame(CLOSE, id, []))
    {
      ReachesSelf(Snapshot());
      if id in streams {
        CloseStream(streams[id], false, CLOSE_VOLUNTARY);
        ReachesInv(old(Snapshot()), Snapshot());
      }
    }

    method Reject()
      requires Inv(Snapshot())
      modifies this
      ensures Inv(Snapshot()) && Reaches(old(Snapshot()), Snapshot())
      ensures cancelled && streams == map[] && handshaken == old(handshaken) && |all| == |old(all)|
      ensures old(sent) + [Frame(4, 0, [0x41])] <= sent
    {
      SendFrame(CLOSE, 0, [CLOSE_INVALID]);
      ghost var before := Snapshot();
      ReachesInv(old(Snapshot()), before);
      CloseServer();
      ReachesThrough(old(Snapshot()), before, Snapshot());
    }

    method HandleHandshake(packet: Frame, sendOk: bool)
      requires Inv(Snapshot()) && packet.stream == 0
      modifies this
      ensures Inv(Snapshot()) && Reaches(old(Snapshot()), Snapshot())
      ensures |all| == |old(all)|
      ensures !GoodInfo(packet) ==>
        cancelled && streams == map[] && handshaken == old(handshaken) && old(sent) + [Frame(4, 0, [0x41])] <= sent
      ensures GoodInfo(packet) ==> handshaken
      ensures GoodInfo(packet) && old(handshaken) ==> Snapshot() == old(Snapshot())
      ensures GoodInfo(packet) && !old(handshaken) ==> old(sent) + [Frame(3, 0, [64, 0, 0, 0])] <= sent
      ensures GoodInfo(packet) && !old(handshaken) && sendOk ==>
        Snapshot() == old(Snapshot()).(handshaken := true, sent := old(sent) + [Frame(3, 0, [64, 0, 0, 0])])
      ensures GoodInfo(packet) && !old(handshaken) && !sendOk ==> cancelled && streams == map[]
    {
      if packet.kind != INFO || |packet.payload| < 2 || packet.payload[0] != 2 {
        Reject();
        return;
      }
      ReachesSelf(Snapshot());
      if handshaken {
        return;
      }
      handshaken := true;
      ReachesStep(old(Snapshot()), Handshake);
      ghost var shaken := Snapshot();
      SendFrame(CONTINUE, 0, ALLOWANCE);
      assert ALLOWANCE == [64, 0, 0, 0];
      ghost var allowed := Snapshot();
      ReachesThrough(old(Snapshot()), shaken, allowed);
      ReachesInv(old(Snapshot()), allowed);
      if !sendOk {
        CloseServer();
        ReachesThrough(old(Snapshot()), allowed, Snapshot());
      }
    }

    method OpenStream(packet: Frame)
      requires Inv(Snapshot()) && handshaken
      modifies this
      ensures Inv(Snapshot()) && Reaches(old(Snapshot()), Snapshot())
      ensures Snapshot() == Handled(old(Snapshot()), packet.(kind := CONNECT))
    {
      if |packet.payload| < 4 || packet.payload[0] != 1 {
        SendFrame(CLOSE, packet.stream, [CLOSE_INVALID]);
      } else if FromLe16(packet.payload[1..3]) == 0 {
        SendFrame(CLOSE, packet.stream, [CLOSE_INVALID]);
      } else if packet.stream in streams {
        SendFrame(CLOSE, packet.stream, [CLOSE_INVALID]);
      } else if |streams| >= MAX_STREAMS {
        SendFrame(CLOSE, packet.stream, [CLOSE_THROTTLED]);
      } else {
        OpenInv(Snapshot(), packet.stream);
        ReachesStep(Snapshot(), Step.Open(packet.stream));
        streams := streams[packet.stream := |all|];
        all := all + [Fresh(packet.stream)];
      }
    }

    /** The non-blocking send on the stream's queue: a full queue closes the stream. */
    method Deliver(id: StreamId, payload: Bytes)
      requires Inv(Snapshot()) && id in streams
      modifies this
      ensures Inv(Snapshot()) && Reaches(old(Snapshot()), Snapshot())
      ensures Snapshot() == Handled(old(Snapshot()), Frame(DATA, id, payload))
    {
      var i := streams[id];
      if |all[i].queue| < QUEUE {
        all := all[i := all[i].(queue := all[i].queue + [payload])];
        ReachesStep(old(Snapshot()), Accept(i, payload));
      } else {
        CloseStream(i, true, CLOSE_THROTTLED);
      }
      ReachesInv(old(Snapshot()), Snapshot());
    }

    /** The part of `connect` after the dial: the connection is kept, or closed when the stream is gone. */
    method Publish(i: nat, ok: bool)
      requires Inv(Snapshot()) && i < |all| && all[i].dial.Dialing?
      modifies this
      ensures Inv(Snapshot()) && Reaches(old(Snapshot()), Snapshot())
      ensures var gone := ContextDone(old(Snapshot()), i);
        Snapshot() == old(Snapshot()).(all := old(all)[i := old(all)[i].(dial := Published(ok), conn := ok && !gone,
                                                                       releases := old(all)[i].releases + if ok && gone then 1 else 0)])
    {
      ReachesStep(Snapshot(), DialReturns(i, ok));
      DialEnds(i, ok);
      ghost var returned := Snapshot();
      ReachesStep(returned, Step.Publish(i));
      StoreConnection(i);
      ReachesThrough(old(Snapshot()), returned, Snapshot());
      ReachesInv(old(Snapshot()), Snapshot());
    }

    /** `connect`: a failed dial closes the stream and tells the client why. */
    method Connect(i: nat, result: DialResult)
      requires Inv(Snapshot()) && i < |all| && all[i].dial.Dialing?
      modifies this
      ensures Inv(Snapshot()) && Reaches(old(Snapshot()), Snapshot())
      ensures |all| == |old(all)| && forall j :: 0 <= j < |all| && j != i ==> all[j] == old(all)[j]
      ensures all[i].conn <==> result.Connected? && !ContextDone(old(Snapshot()), i)
      ensures result.Connected? ==> sent == old(sent) && streams == old(streams) && all[i].phase == old(all)[i].phase
      ensures !result.Connected? ==> all[i].phase == Done
      ensures !result.Connected? && old(all)[i].phase == Phase.Open ==>
        && streams == old(streams) - {old(all)[i].id}
        && sent == old(sent) + [Frame(CLOSE, old(all)[i].id, [if result.PolicyRefused? then 0x48 else 0x42])]
    {
      Publish(i, result.Connected?);
      ghost var published := Snapshot();
      if !result.Connected? {
        var reason := CLOSE_UNREACHABLE;
        if result.PolicyRefused? {
          reason := CLOSE_BLOCKED;
        }
        CloseStream(i, true, reason);
        ReachesThrough(old(Snapshot()), published, Snapshot());
        ReachesInv(old(Snapshot()), Snapshot());
      }
    }
  }
}
