/** What `onMessage` makes of each packet, as a function on the server's state, and what that means: byte by
    byte, over whole sequences of packets, and as runs of the server machine. */
module WispPackets {
  import opened ByteSeq
  import opened WispFrame
  import opened WispServer

  const ALLOWANCE: Bytes := Le32(64)

  /** A packet on stream 0 that completes the handshake. */
  predicate GoodInfo(f: Frame) {
    f.kind == INFO && |f.payload| >= 2 && f.payload[0] == 2
  }

  /** A CONNECT payload: TCP, a port other than 0, and a host name. */
  predicate GoodConnect(payload: Bytes) {
    |payload| >= 4 && payload[0] == 1 && FromLe16(payload[1..3]) != 0
  }

  /** The message is a DATA packet (2) for the stream. */
  predicate IsData(data: Bytes, id: StreamId, payload: Bytes) {
    id != 0 && |data| <= 65536 && data == Encode(Frame(2, id, payload))
  }

  /** Messages that end the whole server. */
  predicate Rejects(handshaken: bool, data: Bytes) {
    match Parse(data)
    case Packet(f) => if f.stream == 0 then !GoodInfo(f) else !handshaken
    case _ => true
  }

  /** What a close does to its own stream. */
  function Ended(t: Stream, notify: bool, reason: byte): Stream {
    var u := if t.phase == Phase.Open then t.(notify := notify, reason := reason) else t;
    u.(phase := Done,
       releases := t.releases + (if t.conn && t.phase != Released && t.phase != Done then 1 else 0),
       notices := t.notices + (if u.notify && t.phase != Done then 1 else 0))
  }

  /** `close` run to its end, wherever another goroutine's close of the stream stands: the regions that
      are left are run, and the arguments of the first caller count. */
  function CloseNow(s: Server, i: nat, notify: bool, reason: byte): Server
    requires i < |s.all|
  {
    var u := Ended(s.all[i], notify, reason);
    s.(all := s.all[i := u], streams := if Listed(s.all[i].phase) then s.streams - {u.id} else s.streams,
       sent := if s.all[i].phase != Done && u.notify then s.sent + [Frame(CLOSE, u.id, [u.reason])] else s.sent)
  }

  function Refuse(s: Server, id: StreamId, reason: byte): Server {
    s.(sent := s.sent + [Frame(CLOSE, id, [reason])])
  }

  /** What a packet for one stream does after the handshake. */
  function Handled(s: Server, f: Frame): Server {
    var listed := f.stream in s.streams && s.streams[f.stream] < |s.all|;
    if f.kind == CONNECT then
      if f.stream in s.streams || !GoodConnect(f.payload) then Refuse(s, f.stream, CLOSE_INVALID)
      else if |s.streams| >= MAX_STREAMS then Refuse(s, f.stream, CLOSE_THROTTLED)
      else s.(streams := s.streams[f.stream := |s.all|], all := s.all + [Fresh(f.stream)])
    else if f.kind == DATA then
      if !listed then Refuse(s, f.stream, CLOSE_INVALID)
      else
        var i := s.streams[f.stream];
        if |s.all[i].queue| < QUEUE then s.(all := s.all[i := s.all[i].(queue := s.all[i].queue + [f.payload])])
        else CloseNow(s, i, true, CLOSE_THROTTLED)
    else if f.kind == CLOSE then
      if listed then CloseNow(s, s.streams[f.stream], false, CLOSE_VOLUNTARY) else s
    else Refuse(s, f.stream, CLOSE_INVALID)
  }

  /** A packet touches only the stream its ID names, and only a good CONNECT makes a new one. */
  lemma HandledIsLocal(s: Server, f: Frame)
    requires Inv(s)
    ensures var t := Handled(s, f);
      && |s.all| <= |t.all| && (forall i :: 0 <= i < |s.all| && t.all[i] != s.all[i] ==> f.stream in s.streams && s.streams[f.stream] == i)
      && (|t.all| > |s.all| <==> f.kind == CONNECT && f.stream !in s.streams && GoodConnect(f.payload) && |s.streams| < MAX_STREAMS)
      && (forall id :: id != f.stream ==> (id in t.streams <==> id in s.streams))
  {
  }

  // ----- what each packet does, byte by byte -----

  /** The messages that end the server: the wrong length or kind; on stream 0, what is not INFO (5) with major
      version 2; on any other stream, everything before the handshake. */
  lemma RejectsExactly(handshaken: bool, data: Bytes)
    ensures Rejects(handshaken, data) <==>
      || |data| < 5 || |data| > 65536 || !(1 <= data[0] <= 5)
      || (if data[1] == 0 && data[2] == 0 && data[3] == 0 && data[4] == 0 then data[0] != 5 || |data| < 7 || data[5] != 2
          else !handshaken)
  {
    ParsedFields(data);
  }

  /** DATA (2) goes to the end of its own stream's queue of 64; one more closes the stream with reason 0x49;
      DATA for a stream that is not listed is answered with reason 0x41. */
  lemma DataHandled(s: Server, id: StreamId, payload: Bytes)
    requires Inv(s)
    ensures var t := Handled(s, Frame(2, id, payload));
      if id !in s.streams then t == s.(sent := s.sent + [Frame(4, id, [0x41])])
      else
        var i := s.streams[id];
        if |s.all[i].queue| < 64 then t == s.(all := s.all[i := s.all[i].(queue := s.all[i].queue + [payload])])
        else
          && id !in t.streams && |t.all| == |s.all| && t.all[i].phase == Done && t.all[i].queue == s.all[i].queue
          && (s.all[i].phase == Phase.Open ==> t.sent == s.sent + [Frame(4, id, [0x49])])
  {
  }

  /** CLOSE (4) takes a listed stream out of the table, closes its connection and is not answered. */
  lemma CloseHandled(s: Server, id: StreamId, payload: Bytes)
    requires Inv(s)
    ensures var t := Handled(s, Frame(4, id, payload));
      if id !in s.streams then t == s
      else
        var i := s.streams[id];
        && t.streams == s.streams - {id} && |t.all| == |s.all| && t.all[i].phase == Done
        && t.all[i].releases == s.all[i].releases + (if s.all[i].conn then 1 else 0)
        && (s.all[i].phase == Phase.Open ==> t.sent == s.sent)
  {
  }

  /** CONNECT (1) opens a stream exactly if its ID is free, it asks for TCP (1) with a port other than 0 and a
      host name, and fewer than 16 streams are listed; it is answered with reason 0x49 if only the last
      fails, with reason 0x41 otherwise. */
  lemma ConnectHandled(s: Server, id: StreamId, payload: Bytes)
    requires Inv(s)
    ensures var t := Handled(s, Frame(1, id, payload));
      if id in s.streams || |payload| < 4 || payload[0] != 1 || (payload[1] == 0 && payload[2] == 0)
      then t == s.(sent := s.sent + [Frame(4, id, [0x41])])
      else if |s.streams| >= 16 then t == s.(sent := s.sent + [Frame(4, id, [0x49])])
      else && id in t.streams && t.streams[id] == |s.all| && t.streams - {id} == s.streams && t.sent == s.sent
           && |t.all| == |s.all| + 1 && t.all[..|s.all|] == s.all && t.all[|s.all|].queue == [] && t.all[|s.all|].dial == Dialing
  {
    if |payload| >= 4 {
      assert payload[1..3] == [payload[1], payload[2]];
    }
  }

  /** Nothing else is a packet for a stream. */
  lemma OtherHandled(s: Server, f: Frame)
    requires f.kind != 1 && f.kind != 2 && f.kind != 4
    ensures Handled(s, f) == s.(sent := s.sent + [Frame(4, f.stream, [0x41])])
  {
  }

  // ----- whole sequences of packets -----

  /** The packets are handled one after the other and the writers take nothing meanwhile. */
  function HandledAll(s: Server, frames: seq<Frame>): Server
    decreases |frames|
  {
    if frames == [] then s else HandledAll(Handled(s, frames[0]), frames[1..])
  }

  /** The DATA payloads for the ID up to the first CLOSE for it. */
  function DataFor(frames: seq<Frame>, id: StreamId): seq<Bytes> {
    if frames == [] || (frames[0].stream == id && frames[0].kind == 4) then []
    else if frames[0].stream == id && frames[0].kind == 2 then [frames[0].payload] + DataFor(frames[1..], id)
    else DataFor(frames[1..], id)
  }

  predicate ClosesStream(frames: seq<Frame>, id: StreamId) {
    exists k :: 0 <= k < |frames| && frames[k].stream == id && frames[k].kind == 4
  }

  function AtMost64(packets: seq<Bytes>): seq<Bytes> {
    if |packets| <= 64 then packets else packets[..64]
  }

  lemma ConnectInv(s: Server, f: Frame)
    requires Inv(s) && s.handshaken && f.kind == CONNECT
    ensures Inv(Handled(s, f)) && Handled(s, f).handshaken
  {
    OpenInv(s, f.stream);
  }

  lemma AcceptShape(s: Server, i: nat, payload: Bytes)
    requires i < |s.all| && |s.all[i].queue| < QUEUE
    ensures Apply(s, Accept(i, payload)) == s.(all := s.all[i := s.all[i].(queue := s.all[i].queue + [payload])])
  {
  }

  lemma DataInv(s: Server, f: Frame)
    requires Inv(s) && s.handshaken && f.kind == DATA
    ensures Inv(Handled(s, f)) && Handled(s, f).handshaken
  {
    if f.stream in s.streams {
      var i := s.streams[f.stream];
      if |s.all[i].queue| < QUEUE {
        StepInv(s, Accept(i, f.payload));
        AcceptShape(s, i, f.payload);
      } else {
        CloseNowInv(s, i, true, CLOSE_THROTTLED);
      }
    }
  }

  lemma CloseInv(s: Server, f: Frame)
    requires Inv(s) && s.handshaken && f.kind == CLOSE
    ensures Inv(Handled(s, f)) && Handled(s, f).handshaken
  {
    if f.stream in s.streams {
      CloseNowInv(s, s.streams[f.stream], false, CLOSE_VOLUNTARY);
    }
  }

  lemma HandledInv(s: Server, f: Frame)
    requires Inv(s) && s.handshaken
    ensures Inv(Handled(s, f)) && Handled(s, f).handshaken
  {
    if f.kind == CONNECT {
      ConnectInv(s, f);
    } else if f.kind == DATA {
      DataInv(s, f);
    } else if f.kind == CLOSE {
      CloseInv(s, f);
    }
  }

  lemma CloseNowInv(s: Server, i: nat, notify: bool, reason: byte)
    requires Inv(s) && i < |s.all|
    ensures Inv(CloseNow(s, i, notify, reason))
  {
    CloseIsFour(s, i, notify, reason);
    ReachesFour(s, Cancel(i, notify, reason), Delete(i), Release(i), Notice(i));
    ReachesInv(s, CloseNow(s, i, notify, reason));
  }

  /** A stream that is out of the table gets nothing any more. */
  lemma UnlistedFrozen(s: Server, f: Frame, i: nat)
    requires Inv(s) && i < |s.all| && !Listed(s.all[i].phase)
    ensures i < |Handled(s, f).all| && Handled(s, f).all[i] == s.all[i]
  {
    HandledIsLocal(s, f);
  }

  lemma {:induction false} UnlistedStays(s: Server, frames: seq<Frame>, i: nat)
    requires Inv(s) && s.handshaken && i < |s.all| && !Listed(s.all[i].phase)
    ensures i < |HandledAll(s, frames).all| && HandledAll(s, frames).all[i] == s.all[i]
    decreases |frames|
  {
    if frames != [] {
      HandledInv(s, frames[0]);
      UnlistedFrozen(s, frames[0], i);
      UnlistedStays(Handled(s, frames[0]), frames[1..], i);
    }
  }

  /** One packet for a listed stream. */
  lemma QueueStep(s: Server, f: Frame, id: StreamId)
    requires Inv(s) && s.handshaken && id in s.streams
    ensures var i := s.streams[id]; var t := Handled(s, f); var q := s.all[i].queue;
      && i < |t.all|
      && t.all[i].queue == (if f.stream == id && f.kind == 2 then AtMost64(q + [f.payload]) else q)
      && (if f.stream == id && (f.kind == 4 || (f.kind == 2 && |q| >= 64)) then !Listed(t.all[i].phase)
          else id in t.streams && t.streams[id] == i && t.all[i].phase == s.all[i].phase)
  {
    HandledIsLocal(s, f);
    if f.stream == id {
      if f.kind == 2 {
        DataHandled(s, id, f.payload);
      } else if f.kind == 4 {
        CloseHandled(s, id, f.payload);
      } else if f.kind == 1 {
        ConnectHandled(s, id, f.payload);
      }
    } else {
      OtherStreamListed(s, f, id);
    }
  }

  lemma OtherStreamListed(s: Server, f: Frame, id: StreamId)
    requires Inv(s) && id in s.streams && f.stream != id
    ensures id in Handled(s, f).streams && Handled(s, f).streams[id] == s.streams[id]
  {
  }

  /** Messages arrive: over any sequence of packets for any streams, a listed stream's queue is what it was,
      followed by the payloads of the DATA packets for its ID in their order, up to 64; and it is still listed
      exactly if there were no more and it was not closed. */
  lemma {:induction false} QueueCollects(s: Server, frames: seq<Frame>, id: StreamId)
    requires Inv(s) && s.handshaken && id in s.streams
    ensures var i := s.streams[id]; var t := HandledAll(s, frames); var packets := s.all[i].queue + DataFor(frames, id);
      && i < |t.all| && t.all[i].queue == AtMost64(packets)
      && (Listed(t.all[i].phase) <==> |packets| <= 64 && !ClosesStream(frames, id))
    decreases |frames|
  {
    if frames == [] {
      assert s.all[s.streams[id]].queue + [] == s.all[s.streams[id]].queue;
    } else {
      var f, rest := frames[0], frames[1..];
      HandledInv(s, f);
      QueueStep(s, f, id);
      ClosesCons(frames, id);
      if f.stream == id && (f.kind == 4 || (f.kind == 2 && |s.all[s.streams[id]].queue| >= 64)) {
        UnlistedStays(Handled(s, f), rest, s.streams[id]);
        QueueEnds(s.all[s.streams[id]].queue, frames, id);
      } else {
        QueueCollects(Handled(s, f), rest, id);
        QueueGoesOn(s.all[s.streams[id]].queue, frames, id);
      }
    }
  }

  lemma QueueEnds(q: seq<Bytes>, frames: seq<Frame>, id: StreamId)
    requires frames != [] && frames[0].stream == id && |q| <= 64 && (frames[0].kind == 4 || (frames[0].kind == 2 && |q| >= 64))
    ensures AtMost64(q + DataFor(frames, id)) == q == AtMost64(q + [frames[0].payload])[..|q|]
    ensures frames[0].kind == 2 ==> |q + DataFor(frames, id)| > 64 && AtMost64(q + [frames[0].payload]) == q
  {
    if frames[0].kind == 4 {
      assert q + [] == q;
    }
  }

  lemma QueueGoesOn(q: seq<Bytes>, frames: seq<Frame>, id: StreamId)
    requires frames != [] && !(frames[0].stream == id && (frames[0].kind == 4 || (frames[0].kind == 2 && |q| >= 64))) && |q| <= 64
    ensures var q' := if frames[0].stream == id && frames[0].kind == 2 then AtMost64(q + [frames[0].payload]) else q;
      q' + DataFor(frames[1..], id) == q + DataFor(frames, id)
  {
    if frames[0].stream == id && frames[0].kind == 2 {
      assert q + [frames[0].payload] + DataFor(frames[1..], id) == q + ([frames[0].payload] + DataFor(frames[1..], id));
    }
  }

  lemma ClosesCons(frames: seq<Frame>, id: StreamId)
    requires frames != []
    ensures ClosesStream(frames, id) <==> (frames[0].stream == id && frames[0].kind == 4) || ClosesStream(frames[1..], id)
  {
    assert forall k :: 0 < k < |frames| ==> frames[k] == frames[1..][k - 1];
    assert forall k :: 0 <= k < |frames[1..]| ==> frames[1..][k] == frames[k + 1];
  }

  /** The state `t` comes out of a run of the server machine that starts in `s`. */
  ghost predicate Reaches(s: Server, t: Server) {
    exists steps :: RunFrom(s, steps) == t
  }

  lemma ReachesSelf(s: Server)
    ensures Reaches(s, s)
  {
    assert RunFrom(s, []) == s;
  }

  lemma ReachesStep(s: Server, step: Step)
    ensures Reaches(s, Apply(s, step))
  {
    assert RunFrom(s, [step]) == Apply(s, step);
  }

  lemma ReachesThrough(s: Server, t: Server, u: Server)
    requires Reaches(s, t) && Reaches(t, u)
    ensures Reaches(s, u)
  {
    var a :| RunFrom(s, a) == t;
    var b :| RunFrom(t, b) == u;
    RunAppend(s, a, b);
  }

  lemma ReachesInv(s: Server, t: Server)
    requires Reaches(s, t) && Inv(s)
    ensures Inv(t)
  {
    var a :| RunFrom(s, a) == t;
    RunFromInv(s, a);
  }

  /** The stream after the first two regions: cancelled and out of the table. */
  function Left(t: Stream, notify: bool, reason: byte): Stream {
    if t.phase == Phase.Open then t.(phase := Deleted, notify := notify, reason := reason)
    else if t.phase == Cancelled then t.(phase := Deleted)
    else t
  }

  lemma CloseFirst(s: Server, i: nat, notify: bool, reason: byte)
    requires i < |s.all|
    ensures Apply(Apply(s, Cancel(i, notify, reason)), Delete(i))
         == s.(all := s.all[i := Left(s.all[i], notify, reason)], streams := if Listed(s.all[i].phase) then s.streams - {s.all[i].id} else s.streams)
  {
    var s1 := Apply(s, Cancel(i, notify, reason));
    assert s1.all == s.all[i := s1.all[i]];
  }

  lemma CloseLast(s: Server, i: nat)
    requires i < |s.all| && !Listed(s.all[i].phase)
    ensures var t := s.all[i];
      Apply(Apply(s, Release(i)), Notice(i))
         == s.(all := s.all[i := Ended(t, t.notify, t.reason)],
               sent := if t.phase != Done && t.notify then s.sent + [Frame(CLOSE, t.id, [t.reason])] else s.sent)
  {
    var s1 := Apply(s, Release(i));
    assert s1.all == s.all[i := s1.all[i]];
  }

  lemma EndedAfterLeft(t: Stream, notify: bool, reason: byte)
    ensures var u := Left(t, notify, reason);
      && Ended(u, u.notify, u.reason) == Ended(t, notify, reason) && !Listed(u.phase) && u.id == t.id
      && (u.phase == Done <==> t.phase == Done)
  {
  }

  /** The four regions of `close` in a row; a region that is behind the stream does nothing. */
  lemma CloseIsFour(s: Server, i: nat, notify: bool, reason: byte)
    requires i < |s.all|
    ensures Apply(Apply(Apply(Apply(s, Cancel(i, notify, reason)), Delete(i)), Release(i)), Notice(i)) == CloseNow(s, i, notify, reason)
  {
    CloseFirst(s, i, notify, reason);
    EndedAfterLeft(s.all[i], notify, reason);
    CloseLast(Apply(Apply(s, Cancel(i, notify, reason)), Delete(i)), i);
  }

  lemma ReachesFour(s: Server, a: Step, b: Step, c: Step, d: Step)
    ensures Reaches(s, Apply(Apply(Apply(Apply(s, a), b), c), d))
  {
    var s1 := Apply(s, a);
    var s2 := Apply(s1, b);
    var s3 := Apply(s2, c);
    ReachesStep(s, a);
    ReachesStep(s1, b);
    ReachesThrough(s, s1, s2);
    ReachesStep(s2, c);
    ReachesThrough(s, s2, s3);
    ReachesStep(s3, d);
    ReachesThrough(s, s3, Apply(s3, d));
  }

  /** The numbers of the streams in the table. */
  function Numbers(s: Server): set<nat> {
    set id | id in s.streams :: s.streams[id]
  }

  lemma NumbersExact(s: Server)
    requires Inv(s)
    ensures forall i: nat :: i in Numbers(s) <==> i < |s.all| && Listed(s.all[i].phase)
  {
    forall i: nat | i < |s.all| && Listed(s.all[i].phase)
      ensures i in Numbers(s)
    {
      assert s.all[i].id in s.streams;
    }
  }

  lemma NothingListed(s: Server)
    requires Inv(s) && forall i :: 0 <= i < |s.all| ==> !Listed(s.all[i].phase)
    ensures s.streams == map[]
  {
    forall id: StreamId
      ensures id !in s.streams
    {
    }
  }
}
