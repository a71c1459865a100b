/** The data path of one Wisp stream: a client that respects its packet credits, the ordered channel
    in both directions, the 64-packet queue between `onMessage` and `writeLoop`, and the target socket.

    Every lock region, channel operation and socket write is one step, so a sequence of steps is an
    interleaving of the client, the message handler and the writer.  A step that is not enabled leaves
    the state alone, so every sequence of steps is a run. */
module WispFlow {
  import opened ByteSeq

  const ALLOWANCE: nat := 64
  const THRESHOLD: nat := ALLOWANCE / 2

  /** A CONTINUE packet.  Only `value` is on the wire; `accepted` and `finished` record how many DATA
      packets had been queued and fully written when the writer measured its queue. */
  datatype Continue = Continue(value: nat, accepted: nat, finished: nat)

  /** Where `writeLoop` stands. `rest` is what `writeAll` still has to write of the current packet. */
  datatype Writer =
    | AwaitingDial
    | Idle
    | Writing(rest: Bytes)
    | Measured(message: Continue)
    | Stopped(abandoned: bool)

  datatype Flow = Flow(
    credit: nat,               // packets the client may still send
    toServer: seq<Bytes>,      // DATA in transit
    inHand: seq<Bytes>,        // DATA `onMessage` holds after finding the stream in the table
    listed: bool,              // the stream is still in the server's table
    throttled: bool,           // a full queue closed the stream
    queue: seq<Bytes>,         // `current.write`
    writer: Writer,
    consumed: nat,             // packets written since the last CONTINUE was sent
    toClient: seq<Continue>,   // CONTINUE in transit
    target: Bytes,             // bytes the target took
    // history
    sent: seq<Bytes>,          // every DATA the client ever sent
    accepted: seq<Bytes>,      // every DATA that entered the queue
    finished: nat,             // how many of those were written completely
    last: Continue,            // the CONTINUE the client received last
    crossed: nat               // DATA that crossed it on the way
  )

  const START := Flow(ALLOWANCE, [], [], true, false, [], AwaitingDial, 0, [], [],
                      [], [], 0, Continue(ALLOWANCE, 0, 0), 0)

  datatype Step =
    | Send(payload: Bytes)     // client spends a credit
    | Look                     // onMessage looks the stream up
    | Enqueue                  // onMessage's non-blocking send on the queue
    | DialDone(ok: bool)       // connReady closes
    | Take                     // writer receives from the queue
    | Write(n: nat)            // one Write call takes n bytes
    | WriteFails(n: nat)       // a Write call takes n bytes and reports an error
    | Finish                   // writeAll returned nil
    | Measure                  // remaining := 64 - len(queue)
    | Emit(ok: bool)           // sendFrame of the CONTINUE
    | Receive                  // the client gets a CONTINUE
    | Unlist                   // close() deletes the stream
    | Quit                     // writer sees its context done

  function Apply(s: Flow, step: Step): Flow {
    match step
    case Send(p) =>
      if s.credit == 0 then s
      else s.(credit := s.credit - 1, toServer := s.toServer + [p], sent := s.sent + [p])
    case Look =>
      if s.inHand != [] || s.toServer == [] then s
      else s.(toServer := s.toServer[1..], inHand := if s.listed then [s.toServer[0]] else [])
    case Enqueue =>
      if s.inHand == [] then s
      else if |s.queue| < ALLOWANCE then
        s.(inHand := [], queue := s.queue + s.inHand, accepted := s.accepted + s.inHand)
      else
        s.(inHand := [], listed := false, throttled := s.throttled || s.listed)
    case DialDone(ok) =>
      if !s.writer.AwaitingDial? then s else s.(writer := if ok then Idle else Stopped(false))
    case Take =>
      if !s.writer.Idle? || s.consumed >= THRESHOLD || s.queue == [] then s
      else s.(writer := Writing(s.queue[0]), queue := s.queue[1..])
    case Write(n) =>
      if !s.writer.Writing? || n == 0 || n > |s.writer.rest| then s
      else s.(writer := Writing(s.writer.rest[n..]), target := s.target + s.writer.rest[..n])
    case WriteFails(n) =>
      if !s.writer.Writing? || s.writer.rest == [] || n > |s.writer.rest| then s
      else s.(writer := Stopped(true), target := s.target + s.writer.rest[..n])
    case Finish =>
      if !s.writer.Writing? || s.writer.rest != [] then s
      else s.(writer := Idle, consumed := s.consumed + 1, finished := s.finished + 1)
    case Measure =>
      if !s.writer.Idle? || s.consumed < THRESHOLD || |s.queue| > ALLOWANCE then s
      else s.(writer := Measured(Continue(ALLOWANCE - |s.queue|, |s.accepted|, s.finished)))
    case Emit(ok) =>
      if !s.writer.Measured? then s
      else if !ok then s.(writer := Stopped(false))
      else s.(writer := Idle, consumed := 0, toClient := s.toClient + [s.writer.message])
    case Receive =>
      if s.toClient == [] || |s.sent| < s.toClient[0].accepted then s
      else s.(credit := s.toClient[0].value, toClient := s.toClient[1..], last := s.toClient[0],
              crossed := |s.sent| - s.toClient[0].accepted)
    case Unlist => s.(listed := false)
    case Quit => if s.writer.Idle? then s.(writer := Stopped(false)) else s
  }

  function RunFrom(s: Flow, steps: seq<Step>): Flow
    decreases |steps|
  {
    if steps == [] then s else RunFrom(Apply(s, steps[0]), steps[1..])
  }

  function Run(steps: seq<Step>): Flow {
    RunFrom(START, steps)
  }

  lemma {:induction false} RunAppend(s: Flow, a: seq<Step>, b: seq<Step>)
    ensures RunFrom(s, a + b) == RunFrom(RunFrom(s, a), b)
    decreases |a|
  {
    if a == [] {
      assert a + b == b;
    } else {
      assert (a + b)[1..] == a[1..] + b;
      RunAppend(Apply(s, a[0]), a[1..], b);
    }
  }

  // ----- what every step keeps -----

  /** Packets the writer has taken and not finished. */
  function Held(w: Writer): nat {
    if w.Writing? || (w.Stopped? && w.abandoned) then 1 else 0
  }

  /** The arrival order: nothing is reordered, and nothing is accepted past a gap. */
  ghost predicate Ordered(s: Flow) {
    && s.accepted + s.inHand <= s.sent
    && |s.inHand| <= 1
    && (s.listed ==> s.sent == s.accepted + s.inHand + s.toServer)
    && (s.throttled ==> !s.listed)
  }

  /** The queue and the writer partition the accepted packets, oldest first. */
  ghost predicate Partitioned(s: Flow) {
    && |s.queue| <= ALLOWANCE
    && |s.accepted| == s.finished + Held(s.writer) + |s.queue|
    && s.queue == s.accepted[s.finished + Held(s.writer)..]
    && (s.writer.AwaitingDial? ==> s.finished == 0 && s.target == [])
  }

  /** The target holds exactly the finished packets and the written part of the current one. */
  ghost predicate Delivered(w: Writer, target: Bytes, accepted: seq<Bytes>, finished: nat) {
    && finished + Held(w) <= |accepted|
    && match w
       case Writing(rest) => target + rest == Concat(accepted[..finished + 1]) && Concat(accepted[..finished]) <= target
       case Stopped(_) => Concat(accepted[..finished]) <= target <= Concat(accepted[..finished + Held(w)])
       case _ => target == Concat(accepted[..finished])
  }

  ghost predicate Written(s: Flow) {
    Delivered(s.writer, s.target, s.accepted, s.finished)
  }

  /** A measurement promises exactly the room that was left. */
  ghost predicate Honest(c: Continue, s: Flow) {
    && c.value + c.accepted == ALLOWANCE + c.finished
    && c.value <= ALLOWANCE
    && c.accepted <= |s.accepted|
    && c.finished <= s.finished
  }

  ghost predicate Credits(s: Flow) {
    && s.credit + |s.sent| == ALLOWANCE + s.crossed + s.last.finished
    && s.credit <= ALLOWANCE
    && s.last.finished <= s.finished
    && (forall i :: 0 <= i < |s.toClient| ==> Honest(s.toClient[i], s))
    && (s.writer.Measured? ==> Honest(s.writer.message, s) && s.writer.message.finished == s.finished)
    && s.finished == (if s.toClient == [] then s.last else s.toClient[|s.toClient| - 1]).finished + s.consumed
    && s.consumed <= THRESHOLD
    && (s.writer.Writing? ==> s.consumed < THRESHOLD)
  }

  ghost predicate Inv(s: Flow) {
    Ordered(s) && Partitioned(s) && Written(s) && Credits(s)
  }

  lemma StartInv()
    ensures Inv(START)
  {
  }

  lemma OrderedStep(s: Flow, step: Step)
    requires Ordered(s)
    ensures Ordered(Apply(s, step))
  {
    if step.Look? && s.inHand == [] && s.toServer != [] && s.listed {
      assert s.sent == s.accepted + [s.toServer[0]] + s.toServer[1..];
    }
    if step.Send? && s.credit > 0 && s.listed {
      assert s.sent + [step.payload] == s.accepted + s.inHand + (s.toServer + [step.payload]);
    }
  }

  lemma PartitionedEnqueue(s: Flow)
    requires Partitioned(s) && |s.inHand| <= 1
    ensures Partitioned(Apply(s, Enqueue))
  {
    var held := s.finished + Held(s.writer);
    assert (s.accepted + s.inHand)[held..] == s.accepted[held..] + s.inHand;
  }

  lemma PartitionedTake(s: Flow)
    requires Partitioned(s)
    ensures Partitioned(Apply(s, Take))
  {
    if Apply(s, Take) != s {
      assert s.queue[1..] == s.accepted[s.finished + 1..];
    }
  }

  /** Every other step keeps the queue, the accepted packets and the border between them. */
  lemma PartitionedOther(s: Flow, step: Step)
    requires Partitioned(s) && !step.Enqueue? && !step.Take?
    ensures var t := Apply(s, step);
      && t.queue == s.queue && t.accepted == s.accepted
      && t.finished + Held(t.writer) == s.finished + Held(s.writer)
      && (t.writer.AwaitingDial? ==> s.writer.AwaitingDial? && t.finished == s.finished && t.target == s.target)
  {
  }

  lemma PartitionedStep(s: Flow, step: Step)
    requires Partitioned(s) && |s.inHand| <= 1
    ensures Partitioned(Apply(s, step))
  {
    if step.Enqueue? {
      PartitionedEnqueue(s);
    } else if step.Take? {
      PartitionedTake(s);
    } else {
      PartitionedOther(s, step);
    }
  }

  lemma DeliveredGrows(w: Writer, target: Bytes, accepted: seq<Bytes>, finished: nat, more: seq<Bytes>)
    requires Delivered(w, target, accepted, finished)
    ensures Delivered(w, target, accepted + more, finished)
  {
    assert (accepted + more)[..finished] == accepted[..finished];
    assert Held(w) == 1 ==> (accepted + more)[..finished + 1] == accepted[..finished + 1];
  }

  lemma WrittenEnqueue(s: Flow)
    requires Written(s)
    ensures Written(Apply(s, Enqueue))
  {
    DeliveredGrows(s.writer, s.target, s.accepted, s.finished, s.inHand);
  }

  lemma WrittenTake(s: Flow)
    requires Partitioned(s) && Written(s) && Partitioned(Apply(s, Take))
    ensures Written(Apply(s, Take))
  {
    if Apply(s, Take) != s {
      assert s.accepted[s.finished] == s.queue[0];
      assert s.accepted[..s.finished + 1] == s.accepted[..s.finished] + [s.queue[0]];
      ConcatSplit(s.accepted[..s.finished], [s.queue[0]]);
      ConcatOne(s.queue[0]);
    }
  }

  lemma WrittenWrite(s: Flow, step: Step)
    requires Partitioned(s) && Written(s) && Partitioned(Apply(s, step)) && (step.Write? || step.WriteFails?)
    ensures Written(Apply(s, step))
  {
    if Apply(s, step) != s {
      var n := step.n;
      assert s.target + s.writer.rest == (s.target + s.writer.rest[..n]) + s.writer.rest[n..];
    }
  }

  lemma WrittenFinish(s: Flow)
    requires Partitioned(s) && Written(s) && Partitioned(Apply(s, Finish))
    ensures Written(Apply(s, Finish))
  {
    if Apply(s, Finish) != s {
      assert s.target + [] == s.target;
    }
  }

  predicate TouchesBytes(step: Step) {
    step.Enqueue? || step.Take? || step.Write? || step.WriteFails? || step.Finish?
  }

  /** The remaining steps keep the target, the accepted packets and the finished count, and do not
      touch a packet that is being written. */
  lemma WrittenShape(s: Flow, step: Step)
    requires !TouchesBytes(step)
    ensures var t := Apply(s, step);
      && t.target == s.target && t.accepted == s.accepted && t.finished == s.finished
      && (t.writer == s.writer || (!s.writer.Writing? && !s.writer.Stopped? && !t.writer.Writing? && Held(t.writer) == 0))
  {
  }

  lemma DeliveredIdle(w: Writer, v: Writer, target: Bytes, accepted: seq<Bytes>, finished: nat)
    requires Delivered(w, target, accepted, finished)
    requires v == w || (!w.Writing? && !w.Stopped? && !v.Writing? && Held(v) == 0)
    ensures Delivered(v, target, accepted, finished)
  {
  }

  lemma WrittenOther(s: Flow, step: Step)
    requires Written(s) && !TouchesBytes(step)
    ensures Written(Apply(s, step))
  {
    WrittenShape(s, step);
    DeliveredIdle(s.writer, Apply(s, step).writer, s.target, s.accepted, s.finished);
  }

  lemma WrittenStep(s: Flow, step: Step)
    requires Partitioned(s) && Written(s) && Partitioned(Apply(s, step))
    ensures Written(Apply(s, step))
  {
    if step.Enqueue? {
      WrittenEnqueue(s);
    } else if step.Take? {
      WrittenTake(s);
    } else if step.Write? || step.WriteFails? {
      WrittenWrite(s, step);
    } else if step.Finish? {
      WrittenFinish(s);
    } else {
      WrittenOther(s, step);
    }
  }

  /** A message that was honest stays honest: the counts it recorded only grow. */
  lemma CreditsCounts(s: Flow, step: Step)
    ensures var t := Apply(s, step);
      && |s.accepted| <= |t.accepted| && s.finished <= t.finished
      && (!step.Receive? && !step.Emit? ==> t.toClient == s.toClient)
  {
  }

  lemma CreditsMessages(s: Flow, step: Step)
    requires Credits(s)
    ensures var t := Apply(s, step); forall i :: 0 <= i < |t.toClient| ==> Honest(t.toClient[i], t)
  {
    var t := Apply(s, step);
    CreditsCounts(s, step);
    forall i | 0 <= i < |t.toClient|
      ensures Honest(t.toClient[i], t)
    {
      if step.Receive? && t != s {
        assert Honest(s.toClient[i + 1], s);
      } else if i < |s.toClient| {
        assert Honest(s.toClient[i], s);
      }
    }
  }

  lemma CreditsReceive(s: Flow)
    requires Credits(s)
    ensures Credits(Apply(s, Receive))
  {
    CreditsMessages(s, Receive);
    if s.toClient != [] {
      assert Honest(s.toClient[0], s);
    }
  }

  lemma CreditsWriter(s: Flow, step: Step)
    requires Credits(s) && |s.queue| <= ALLOWANCE
    requires |s.accepted| == s.finished + Held(s.writer) + |s.queue|
    requires step.Finish? || step.Measure? || step.Emit? || step.Take?
    ensures Credits(Apply(s, step))
  {
    CreditsMessages(s, step);
  }

  lemma CreditsOther(s: Flow, step: Step)
    requires Credits(s)
    requires !step.Finish? && !step.Measure? && !step.Emit? && !step.Take? && !step.Receive?
    ensures Credits(Apply(s, step))
  {
    CreditsMessages(s, step);
    CreditsCounts(s, step);
  }

  lemma CreditsStep(s: Flow, step: Step)
    requires Credits(s) && Partitioned(s)
    ensures Credits(Apply(s, step))
  {
    if step.Receive? {
      CreditsReceive(s);
    } else if step.Finish? || step.Measure? || step.Emit? || step.Take? {
      CreditsWriter(s, step);
    } else {
      CreditsOther(s, step);
    }
  }

  lemma StepInv(s: Flow, step: Step)
    requires Inv(s)
    ensures Inv(Apply(s, step))
  {
    OrderedStep(s, step);
    PartitionedStep(s, step);
    WrittenStep(s, step);
    CreditsStep(s, step);
  }

  lemma {:induction false} RunFromInv(s: Flow, steps: seq<Step>)
    requires Inv(s)
    ensures Inv(RunFrom(s, steps))
    decreases |steps|
  {
    if steps != [] {
      StepInv(s, steps[0]);
      RunFromInv(Apply(s, steps[0]), steps[1..]);
    }
  }

  lemma RunInv(steps: seq<Step>)
    ensures Inv(Run(steps))
  {
    StartInv();
    RunFromInv(START, steps);
  }

  // ----- FIFO delivery -----

  /** In every run the target has received a prefix of the accepted payloads in arrival order, which
      are a prefix of what the client sent; a packet counts as finished only when all of it was written. */
  lemma FifoDelivery(steps: seq<Step>)
    ensures var s := Run(steps);
      && s.accepted <= s.sent
      && s.target <= Concat(s.accepted) <= Concat(s.sent)
      && s.finished <= |s.accepted|
      && Concat(s.accepted[..s.finished]) <= s.target
  {
    RunInv(steps);
    var s := Run(steps);
    assert s.accepted <= s.sent;
    ConcatPrefix(s.accepted, s.sent);
    ConcatPrefix(s.accepted[..s.finished + Held(s.writer)], s.accepted);
  }

  // ----- credit conservation -----

  /** While the stream is open and no CONTINUE is on its way, the client's credit and every packet
      between it and the target add up to the allowance plus what crossed the last CONTINUE. */
  lemma CreditConservation(steps: seq<Step>)
    ensures var s := Run(steps);
      s.listed && s.toClient == [] ==>
        s.credit + |s.toServer| + |s.inHand| + |s.queue| + Held(s.writer) + s.consumed
          == ALLOWANCE + s.crossed
  {
    RunInv(steps);
  }

  /** The queue never holds more than 64 packets, so the room left that goes on the wire is between 0 and
      64 and never wraps as a uint32, and the client never holds more than the allowance. */
  lemma CreditBounds(steps: seq<Step>)
    ensures var s := Run(steps);
      && s.credit <= ALLOWANCE && |s.queue| <= ALLOWANCE
      && (s.writer.Measured? ==> s.writer.message.value <= ALLOWANCE)
      && (forall i :: 0 <= i < |s.toClient| ==> s.toClient[i].value <= ALLOWANCE)
  {
    RunInv(steps);
  }
}
