/** The Wisp server's stream table and the life of each stream: `openStream`, `connect`, `close` and
    `Server.Close`, one step for every region that runs under a lock.  Streams are numbered in the order
    they were opened, so an incarnation of a stream ID is never confused with the next one. */
module WispServer {
  import opened ByteSeq
  import opened WispFrame

  const MAX_STREAMS: nat := 16
  const QUEUE: nat := 64

  const CLOSE_VOLUNTARY: byte := 0x02
  const CLOSE_INVALID: byte := 0x41
  const CLOSE_UNREACHABLE: byte := 0x42
  const CLOSE_BLOCKED: byte := 0x48
  const CLOSE_THROTTLED: byte := 0x49

  /** `connect`: dialling, dial returned, result stored under `connMu` and `connReady` closed. */
  datatype Dial = Dialing | Dialed(ok: bool) | Published(ok: bool)

  /** `close` inside its once: context cancelled, deleted from the table, connection closed, all done. */
  datatype Phase = Open | Cancelled | Deleted | Released | Done

  datatype Stream = Stream(
    id: StreamId,
    dial: Dial,
    phase: Phase,
    conn: bool,          // `current.conn` is not nil
    releases: nat,       // how often the dialled connection was closed
    notify: bool,        // arguments of the close that won the once
    reason: byte,
    notices: nat,        // CLOSE packets sent by close
    queue: seq<Bytes>    // `current.write`
  )

  datatype Server = Server(
    handshaken: bool,
    cancelled: bool,
    streams: map<StreamId, nat>,
    all: seq<Stream>,
    sent: seq<Frame>
  )

  const START := Server(false, false, map[], [], [])

  datatype Step =
    | Handshake
    | Open(id: StreamId)
    | DialReturns(i: nat, ok: bool)
    | Publish(i: nat)
    | Cancel(i: nat, notify: bool, reason: byte)
    | Delete(i: nat)
    | Release(i: nat)
    | Notice(i: nat)
    | CancelServer
    | Accept(i: nat, payload: Bytes)
    | Take(i: nat)
    | Reply(frame: Frame)

  /** The stream's context: its own cancel or the server's. */
  predicate ContextDone(s: Server, i: nat)
    requires i < |s.all|
  {
    s.cancelled || s.all[i].phase != Phase.Open
  }

  function Fresh(id: StreamId): Stream {
    Stream(id, Dialing, Phase.Open, false, 0, false, 0, 0, [])
  }

  /** What a step does to the stream it is about. */
  function Act(t: Stream, step: Step, contextDone: bool): Stream {
    match step
    case DialReturns(_, ok) => if t.dial.Dialing? then t.(dial := Dialed(ok)) else t
    case Publish(_) =>
      if !t.dial.Dialed? then t
      else if contextDone && t.dial.ok then t.(dial := Published(true), conn := false, releases := t.releases + 1)
      else t.(dial := Published(t.dial.ok), conn := t.dial.ok)
    case Cancel(_, notify, reason) =>
      if t.phase == Phase.Open then t.(phase := Cancelled, notify := notify, reason := reason) else t
    case Delete(_) => if t.phase == Cancelled then t.(phase := Deleted) else t
    case Release(_) =>
      if t.phase == Deleted then t.(phase := Released, releases := t.releases + if t.conn then 1 else 0) else t
    case Notice(_) =>
      if t.phase == Released then t.(phase := Done, notices := t.notices + if t.notify then 1 else 0) else t
    case Accept(_, payload) => if |t.queue| < QUEUE then t.(queue := t.queue + [payload]) else t
    case Take(_) => if t.queue != [] then t.(queue := t.queue[1..]) else t
    case _ => t
  }

  predicate AboutStream(step: Step) {
    !step.Handshake? && !step.Open? && !step.CancelServer? && !step.Reply?
  }

  function Apply(s: Server, step: Step): Server {
    match step
    case Handshake => s.(handshaken := true)
    case Open(id) =>
      if !s.handshaken || id in s.streams || |s.streams| >= MAX_STREAMS then s
      else s.(streams := s.streams[id := |s.all|], all := s.all + [Fresh(id)])
    case CancelServer => s.(cancelled := true)
    case Reply(frame) => s.(sent := s.sent + [frame])
    case _ =>
      if step.i >= |s.all| then s
      else
        var t := s.all[step.i];
        s.(all := s.all[step.i := Act(t, step, ContextDone(s, step.i))],
           streams := if step.Delete? && t.phase == Cancelled then s.streams - {t.id} else s.streams,
           sent := if step.Notice? && t.phase == Released && t.notify then s.sent + [Frame(CLOSE, t.id, [t.reason])] else s.sent)
  }

  function RunFrom(s: Server, steps: seq<Step>): Server
    decreases |steps|
  {
    if steps == [] then s else RunFrom(Apply(s, steps[0]), steps[1..])
  }

  function Run(steps: seq<Step>): Server {
    RunFrom(START, steps)
  }

  lemma {:induction false} RunAppend(s: Server, a: seq<Step>, b: seq<Step>)
    ensures RunFrom(s, a + b) == RunFrom(RunFrom(s, a), b)
    decreases |a|
  {
    if a == [] {
      assert a + b == b;
    } else {
      assert (a + b)[1..] == a[1..] + b;
      RunAppend(Apply(s, a[0]), a[1..], b);
    }
  }

  // ----- what every step keeps -----

  predicate Listed(p: Phase) {
    p == Phase.Open || p == Cancelled
  }

  /** A stream is in the table under its ID exactly from its open to its close's delete. */
  ghost predicate TableExact(s: Server) {
    && (forall id :: id in s.streams ==> s.streams[id] < |s.all| && s.all[s.streams[id]].id == id && Listed(s.all[s.streams[id]].phase))
    && (forall i :: 0 <= i < |s.all| && Listed(s.all[i].phase) ==> s.all[i].id in s.streams && s.streams[s.all[i].id] == i)
  }

  /** A dialled connection has one owner at a time, and whoever gives it up closes it. */
  predicate Owned(t: Stream) {
    && (t.conn ==> t.dial == Published(true))
    && (t.dial != Published(true) ==> t.releases == 0)
    && (t.dial == Published(true) && !t.conn ==> t.releases == 1)
    && (t.conn ==> t.releases == if t.phase == Released || t.phase == Done then 1 else 0)
  }

  /** At most one CLOSE comes out of a stream's close, and only if the close that won asked for it. */
  predicate NotifiedOnce(t: Stream) {
    t.notices == if t.phase == Done && t.notify then 1 else 0
  }

  ghost predicate Inv(s: Server) {
    && |s.streams| <= MAX_STREAMS
    && (!s.handshaken ==> s.all == [])
    && TableExact(s)
    && EachOk(s.all)
  }

  lemma ActKeeps(t: Stream, step: Step, contextDone: bool)
    requires Owned(t) && NotifiedOnce(t) && |t.queue| <= QUEUE
    requires t.phase != Phase.Open ==> contextDone
    ensures var u := Act(t, step, contextDone);
      && Owned(u) && NotifiedOnce(u) && |u.queue| <= QUEUE && u.id == t.id
      && (step.Delete? && t.phase == Cancelled ==> u.phase == Deleted)
      && (!(step.Delete? && t.phase == Cancelled) ==> (Listed(u.phase) <==> Listed(t.phase)))
  {
  }

  lemma DeleteSize(m: map<StreamId, nat>, id: StreamId)
    ensures |m - {id}| <= |m|
  {
    assert (m - {id}).Keys <= m.Keys;
    SubsetSize((m - {id}).Keys, m.Keys);
  }

  lemma {:induction false} SubsetSize<T>(a: set<T>, b: set<T>)
    requires a <= b
    ensures |a| <= |b|
  {
    if a != {} {
      var x :| x in a;
      SubsetSize(a - {x}, b - {x});
    }
  }

  lemma OpenShape(s: Server, id: StreamId)
    ensures var t := Apply(s, Step.Open(id));
      t == s || (s.handshaken && id !in s.streams && |s.streams| < MAX_STREAMS
                 && t == s.(streams := s.streams[id := |s.all|], all := s.all + [Fresh(id)]))
  {
  }

  lemma OpenTable(s: Server, id: StreamId)
    requires TableExact(s) && id !in s.streams
    ensures TableExact(s.(streams := s.streams[id := |s.all|], all := s.all + [Fresh(id)]))
  {
    var all := s.all + [Fresh(id)];
    assert forall i :: 0 <= i < |s.all| ==> all[i] == s.all[i];
    assert all[|s.all|] == Fresh(id);
  }

  lemma OpenInv(s: Server, id: StreamId)
    requires Inv(s)
    ensures Inv(Apply(s, Step.Open(id)))
  {
    var t := Apply(s, Step.Open(id));
    OpenShape(s, id);
    if t != s {
      OpenTable(s, id);
      assert t.streams.Keys == s.streams.Keys + {id};
      assert EachOk(s.all + [Fresh(id)]);
    }
  }

  lemma StreamStepTable(s: Server, i: nat, u: Stream, deleted: bool)
    requires TableExact(s) && i < |s.all| && u.id == s.all[i].id
    requires deleted ==> Listed(s.all[i].phase) && !Listed(u.phase)
    requires !deleted ==> (Listed(u.phase) <==> Listed(s.all[i].phase))
    ensures TableExact(s.(all := s.all[i := u], streams := if deleted then s.streams - {u.id} else s.streams))
  {
  }

  /** What holds of every stream by itself. */
  ghost predicate EachOk(all: seq<Stream>) {
    forall i :: 0 <= i < |all| ==> Owned(all[i]) && NotifiedOnce(all[i]) && |all[i].queue| <= QUEUE
  }

  lemma EachKept(all: seq<Stream>, i: nat, u: Stream)
    requires EachOk(all) && i < |all| && Owned(u) && NotifiedOnce(u) && |u.queue| <= QUEUE
    ensures EachOk(all[i := u])
  {
  }

  lemma StreamStepShape(s: Server, step: Step)
    requires AboutStream(step) && step.i < |s.all|
    ensures var t := Apply(s, step); var current := s.all[step.i];
      && t.handshaken == s.handshaken
      && t.all == s.all[step.i := Act(current, step, ContextDone(s, step.i))]
      && t.streams == if step.Delete? && current.phase == Cancelled then s.streams - {current.id} else s.streams
  {
  }

  lemma StreamStepInv(s: Server, step: Step)
    requires Inv(s) && AboutStream(step) && step.i < |s.all|
    ensures Inv(Apply(s, step))
  {
    var i := step.i;
    var u := Act(s.all[i], step, ContextDone(s, i));
    var deleted := step.Delete? && s.all[i].phase == Cancelled;
    ActKeeps(s.all[i], step, ContextDone(s, i));
    DeleteSize(s.streams, s.all[i].id);
    EachKept(s.all, i, u);
    StreamStepTable(s, i, u, deleted);
    StreamStepShape(s, step);
  }

  lemma StepInv(s: Server, step: Step)
    requires Inv(s)
    ensures Inv(Apply(s, step))
  {
    if step.Open? {
      OpenInv(s, step.id);
    } else if AboutStream(step) && step.i < |s.all| {
      StreamStepInv(s, step);
    }
  }

  lemma {:induction false} RunFromInv(s: Server, steps: seq<Step>)
    requires Inv(s)
    ensures Inv(RunFrom(s, steps))
    decreases |steps|
  {
    if steps != [] {
      StepInv(s, steps[0]);
      RunFromInv(Apply(s, steps[0]), steps[1..]);
    }
  }

  // ----- the theorems -----

  /** In every interleaving: at most 16 streams, none before the handshake, and the table holds exactly
      the incarnations between their open and their close's delete, each under its own ID. */
  lemma StreamTable(steps: seq<Step>)
    ensures var s := Run(steps);
      && |s.streams| <= MAX_STREAMS
      && (!s.handshaken ==> s.all == [] && s.streams == map[])
      && TableExact(s)
  {
    RunFromInv(START, steps);
  }

  /** Deleting by ID never removes another incarnation, and leaves every other stream listed. */
  lemma DeleteRemovesOnlyItself(steps: seq<Step>, i: nat)
    requires i < |Run(steps).all| && Run(steps).all[i].phase == Cancelled
    ensures var s := Run(steps); var t := Apply(s, Delete(i));
      && s.all[i].id in s.streams && s.streams[s.all[i].id] == i
      && t.streams == map id | id in s.streams && s.streams[id] != i :: s.streams[id]
  {
    RunFromInv(START, steps);
  }

  /** Connection ownership: once `connect` and `close` have both finished, a connection that was
      dialled has been closed exactly once, and it is never closed twice before that. */
  lemma ConnectionOwnership(steps: seq<Step>, i: nat)
    requires i < |Run(steps).all|
    ensures var t := Run(steps).all[i];
      && t.releases <= 1
      && (t.releases == 1 ==> t.dial == Published(true))
      && (t.dial == Published(true) && (t.phase == Released || t.phase == Done) ==> t.releases == 1)
      && t.notices <= 1
  {
    RunFromInv(START, steps);
  }

  function Rank(p: Phase): nat {
    match p
    case Open => 0
    case Cancelled => 1
    case Deleted => 2
    case Released => 3
    case Done => 4
  }

  /** What `Server.Close`'s cancel fixes for the future. */
  ghost predicate After(s: Server, t: Server) {
    && t.cancelled && |s.all| <= |t.all|
    && (forall i :: 0 <= i < |s.all| ==> Rank(s.all[i].phase) <= Rank(t.all[i].phase))
    && (forall i :: |s.all| <= i < |t.all| ==> !t.all[i].conn)
  }

  lemma ActAfter(t: Stream, step: Step)
    ensures Rank(t.phase) <= Rank(Act(t, step, true).phase)
    ensures !t.conn ==> !Act(t, step, true).conn
  {
  }

  lemma AfterStep(s: Server, t: Server, step: Step)
    requires After(s, t)
    ensures After(s, Apply(t, step))
  {
    if AboutStream(step) && step.i < |t.all| {
      ActAfter(t.all[step.i], step);
      assert Apply(t, step).all == t.all[step.i := Act(t.all[step.i], step, true)];
    }
  }

  lemma {:induction false} AfterRun(s: Server, t: Server, steps: seq<Step>)
    requires After(s, t)
    ensures After(s, RunFrom(t, steps))
    decreases |steps|
  {
    if steps != [] {
      AfterStep(s, t, steps[0]);
      AfterRun(s, Apply(t, steps[0]), steps[1..]);
    }
  }

  /** `Server.Close` leaks nothing: it cancels the server, takes a snapshot of the table and closes
      every stream in it.  When those closes are done, every connection whose `connect` has finished
      has been closed exactly once, including streams opened after the snapshot; the only exceptions
      are streams some other goroutine is closing at that moment. */
  lemma ServerCloseLeaksNothing(before: seq<Step>, after: seq<Step>)
    requires Run(before).cancelled
    requires var s := Run(before); var t := RunFrom(s, after);
      forall id :: id in s.streams && s.streams[id] < |t.all| ==> t.all[s.streams[id]].phase == Done
    ensures var t := RunFrom(Run(before), after);
      forall i :: 0 <= i < |t.all| && t.all[i].dial == Published(true) && (t.all[i].phase == Phase.Open || t.all[i].phase == Done)
        ==> t.all[i].releases == 1
  {
    var s := Run(before);
    RunFromInv(START, before);
    RunFromInv(s, after);
    AfterRun(s, s, after);
    var t := RunFrom(s, after);
    forall i | 0 <= i < |s.all| && s.all[i].phase == Phase.Open
      ensures t.all[i].phase == Done
    {
      assert s.all[i].id in s.streams;
    }
    forall i | 0 <= i < |t.all| && t.all[i].dial == Published(true) && (t.all[i].phase == Phase.Open || t.all[i].phase == Done)
      ensures t.all[i].releases == 1
    {
      assert Owned(t.all[i]);
      assert i < |s.all| ==> Rank(s.all[i].phase) <= Rank(t.all[i].phase);
    }
  }
}
