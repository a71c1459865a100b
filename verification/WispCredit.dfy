/** Consequences of the credit accounting of a Wisp stream: the client always gets credit back, and
    exactly when a client that respects its credit can still be closed for overrunning the queue. */
module WispCredit {
  import opened ByteSeq
  import opened WispFlow

  // ----- no credit deadlock -----

  /** Steps of the server and the channel; the client and failures are not among them. */
  predicate Internal(step: Step) {
    step.Look? || step.Enqueue? || step.Take? || step.Write? || step.Finish? || step.Measure?
    || (step.Emit? && step.ok) || step.Receive?
  }

  function Weight(packets: seq<Bytes>, each: nat): nat {
    if packets == [] then 0 else |packets[0]| + each + Weight(packets[1..], each)
  }

  lemma {:induction false} WeightSplit(a: seq<Bytes>, b: seq<Bytes>, each: nat)
    ensures Weight(a + b, each) == Weight(a, each) + Weight(b, each)
  {
    if a == [] {
      assert a + b == b;
    } else {
      assert (a + b)[1..] == a[1..] + b;
      WeightSplit(a[1..], b, each);
    }
  }

  function WriterWork(s: Flow): nat {
    match s.writer
    case Writing(rest) => |rest| + 4
    case Measured(_) => 2
    case Idle => if s.consumed >= THRESHOLD then 3 else 0
    case _ => 0
  }

  /** Work left between the client's last packet and the client's next credit. */
  function Work(s: Flow): nat {
    Weight(s.toServer, 7) + Weight(s.inHand, 6) + Weight(s.queue, 5) + WriterWork(s) + |s.toClient|
  }

  lemma WeightFirst(packets: seq<Bytes>, each: nat)
    requires packets != []
    ensures Weight(packets, each) == |packets[0]| + each + Weight(packets[1..], each)
  {
  }

  lemma WeightOne(packet: Bytes, each: nat)
    ensures Weight([packet], each) == |packet| + each
  {
    assert [packet][1..] == [];
  }

  lemma LookShrinks(s: Flow)
    requires s.inHand == [] && s.toServer != []
    ensures Work(Apply(s, Look)) < Work(s)
  {
    WeightFirst(s.toServer, 7);
    WeightOne(s.toServer[0], 6);
  }

  lemma EnqueueShrinks(s: Flow)
    requires |s.inHand| == 1
    ensures Work(Apply(s, Enqueue)) < Work(s)
  {
    assert s.inHand == [s.inHand[0]];
    WeightOne(s.inHand[0], 6);
    WeightOne(s.inHand[0], 5);
    WeightSplit(s.queue, s.inHand, 5);
  }

  lemma TakeShrinks(s: Flow)
    requires s.writer.Idle? && s.consumed < THRESHOLD && s.queue != []
    ensures Work(Apply(s, Take)) < Work(s)
  {
    WeightFirst(s.queue, 5);
  }

  /** The writer's other steps and the client's reading leave the packets alone. */
  lemma WriterShrinks(s: Flow, step: Step)
    requires step.Write? || step.Finish? || step.Measure? || (step.Emit? && step.ok) || step.Receive?
    requires Apply(s, step) != s
    ensures Work(Apply(s, step)) < Work(s)
  {
  }

  /** Every internal step that does anything shortens the work that is left: however the writer, the
      message handler and the channel interleave, they cannot keep each other busy for ever. */
  lemma InternalWorkShrinks(s: Flow, step: Step)
    requires Ordered(s) && Internal(step) && Apply(s, step) != s
    ensures Work(Apply(s, step)) < Work(s)
  {
    match step
    case Look => LookShrinks(s);
    case Enqueue => EnqueueShrinks(s);
    case Take => TakeShrinks(s);
    case _ => WriterShrinks(s, step);
  }

  /** Nothing left to do inside. */
  predicate Quiet(s: Flow) {
    s.toServer == [] && s.inHand == [] && s.queue == [] && s.writer.Idle? && s.consumed < THRESHOLD && s.toClient == []
  }

  /** The internal step that is due in a state that is not quiet. */
  function Due(s: Flow): Step {
    if s.inHand != [] then Enqueue
    else if s.toServer != [] then Look
    else if s.toClient != [] then Receive
    else match s.writer
      case Writing(rest) => if rest == [] then Finish else Write(|rest|)
      case Measured(_) => Emit(true)
      case _ => if s.consumed >= THRESHOLD then Measure else Take
  }

  /** A stream with a connected, running writer either has an internal step to take or has given the
      client more than half of its allowance back. */
  lemma QuietMeansCredit(s: Flow)
    requires Inv(s) && s.listed && Running(s)
    ensures if Quiet(s) then s.credit > THRESHOLD else Internal(Due(s)) && Apply(s, Due(s)) != s
  {
    if !Quiet(s) && s.inHand == [] && s.toServer == [] && s.toClient != [] {
      assert Honest(s.toClient[0], s);
      assert |s.toClient[1..]| < |s.toClient|;
    }
    if !Quiet(s) && s.inHand == [] && s.toServer != [] {
      assert |s.toServer[1..]| < |s.toServer|;
    }
  }

  predicate Running(s: Flow) {
    !s.writer.AwaitingDial? && !s.writer.Stopped?
  }

  lemma InternalKeepsRunning(s: Flow, step: Step)
    requires Running(s) && Internal(step)
    ensures Running(Apply(s, step))
  {
  }

  /** The step that is due makes progress. */
  lemma DueProgresses(s: Flow)
    requires Inv(s) && s.listed && Running(s) && !Quiet(s)
    ensures var t := Apply(s, Due(s)); Internal(Due(s)) && Inv(t) && Running(t) && Work(t) < Work(s)
  {
    QuietMeansCredit(s);
    InternalWorkShrinks(s, Due(s));
    InternalKeepsRunning(s, Due(s));
    StepInv(s, Due(s));
  }

  /** No credit deadlock: from every reachable state of an open stream whose dial succeeded, the server
      and the channel by themselves reach, in at most `Work` steps, a state in which the client holds
      more than half of its allowance, unless the stream was closed on the way. */
  lemma {:induction false} CreditReturns(s: Flow) returns (steps: seq<Step>)
    requires Inv(s) && Running(s)
    ensures |steps| <= Work(s) && forall i :: 0 <= i < |steps| ==> Internal(steps[i])
    ensures var t := RunFrom(s, steps); !t.listed || t.credit > THRESHOLD
    decreases Work(s)
  {
    if s.listed && !Quiet(s) {
      DueProgresses(s);
      var rest := CreditReturns(Apply(s, Due(s)));
      steps := [Due(s)] + rest;
    } else {
      steps := [];
      if s.listed { QuietMeansCredit(s); }
    }
  }

  lemma NoCreditDeadlock(run: seq<Step>)
    ensures var s := Run(run); Running(s) ==>
      exists steps :: (forall i :: 0 <= i < |steps| ==> Internal(steps[i]))
        && (!Run(run + steps).listed || Run(run + steps).credit > THRESHOLD)
  {
    var s := Run(run);
    RunInv(run);
    if Running(s) {
      var steps := CreditReturns(s);
      RunAppend(START, run, steps);
      assert Run(run + steps) == RunFrom(s, steps);
    }
  }

  // ----- throttling -----

  /** By how much the packets that crossed the last CONTINUE exceed those the writer took off the queue since. */
  function Overrun(s: Flow): int {
    s.crossed - (s.finished - s.last.finished) - Held(s.writer)
  }

  /** A full queue can only meet a DATA packet after packets crossed the client's last CONTINUE. */
  lemma ThrottleNeedsCrossing(run: seq<Step>, step: Step)
    ensures !Run(run).throttled && Apply(Run(run), step).throttled ==> Overrun(Run(run)) > 0 && Run(run).crossed > 0
  {
    RunInv(run);
  }

  /** The writer takes no packet off the queue. */
  predicate TakesNothing(steps: seq<Step>) {
    forall i :: 0 <= i < |steps| ==> !steps[i].Take?
  }

  /** What the CONTINUE packets on their way will let the client send. */
  function Announced(messages: seq<Continue>): nat {
    if messages == [] then 0 else messages[0].value + Announced(messages[1..])
  }

  lemma {:induction false} AnnouncedAppend(messages: seq<Continue>, c: Continue)
    ensures Announced(messages + [c]) == Announced(messages) + c.value
  {
    if messages == [] {
      assert [c][1..] == [];
    } else {
      assert (messages + [c])[1..] == messages[1..] + [c];
      AnnouncedAppend(messages[1..], c);
    }
  }

  /** The writer will measure its queue and send a CONTINUE before it takes another packet. */
  predicate WillMeasure(s: Flow) {
    (s.writer.Idle? && s.consumed >= THRESHOLD) || (s.writer.Writing? && s.consumed + 1 >= THRESHOLD)
  }

  /** What the writer can still announce before it takes another packet. */
  function Promise(s: Flow): int {
    if s.writer.Measured? then s.writer.message.value
    else if WillMeasure(s) then ALLOWANCE - |s.queue|
    else 0
  }

  /** All the packets that can be in the queue if the writer takes none of them: those that are there or
      on their way, and those the client may yet send. */
  function Exposure(s: Flow): int {
    s.credit + Announced(s.toClient) + Promise(s) + |s.toServer| + |s.inHand| + |s.queue|
  }

  lemma AnnouncedGrows(s: Flow, step: Step)
    ensures Announced(Apply(s, step).toClient) <=
      Announced(s.toClient) + (if step == Emit(true) && s.writer.Measured? then s.writer.message.value else 0)
    ensures step.Receive? && Apply(s, step) != s ==> Announced(Apply(s, step).toClient) + Apply(s, step).credit == Announced(s.toClient)
  {
    if step.Emit? && s.writer.Measured? {
      AnnouncedAppend(s.toClient, s.writer.message);
    }
  }

  /** The client and the message handler only move packets along. */
  lemma InboundKeepsExposure(s: Flow, step: Step)
    requires Inv(s) && (step.Send? || step.Look? || step.Enqueue? || step.Receive? || step.Unlist?)
    ensures Exposure(Apply(s, step)) <= Exposure(s)
  {
    AnnouncedGrows(s, step);
  }

  /** The writer announces what it was going to announce, at most. */
  lemma WriterKeepsExposure(s: Flow, step: Step)
    requires Inv(s) && !step.Take? && !(step.Send? || step.Look? || step.Enqueue? || step.Receive? || step.Unlist?)
    ensures Exposure(Apply(s, step)) <= Exposure(s)
  {
    AnnouncedGrows(s, step);
  }

  /** Unless the writer takes a packet, the exposure never grows. */
  lemma ExposureNeverGrows(s: Flow, step: Step)
    requires Inv(s) && !step.Take?
    ensures Exposure(Apply(s, step)) <= Exposure(s)
  {
    if step.Send? || step.Look? || step.Enqueue? || step.Receive? || step.Unlist? {
      InboundKeepsExposure(s, step);
    } else {
      WriterKeepsExposure(s, step);
    }
  }

  /** A throttle close meets a full queue and one packet more. */
  lemma ThrottlesFull(s: Flow, step: Step)
    requires Inv(s) && s.listed && Apply(s, step).throttled
    ensures Exposure(s) > ALLOWANCE
  {
  }

  lemma {:induction false} ThrottledOnlyIfExposed(s: Flow, steps: seq<Step>)
    requires Inv(s) && s.listed && TakesNothing(steps)
    requires RunFrom(s, steps).throttled
    ensures Exposure(s) > ALLOWANCE
    decreases |steps|
  {
    var t := Apply(s, steps[0]);
    StepInv(s, steps[0]);
    ExposureNeverGrows(s, steps[0]);
    if t.listed {
      ThrottledOnlyIfExposed(t, steps[1..]);
    } else {
      UnlistedStays(t, steps[1..]);
      ThrottlesFull(s, steps[0]);
    }
  }

  /** Only a listed stream can be throttled. */
  lemma {:induction false} UnlistedStays(s: Flow, steps: seq<Step>)
    requires !s.listed
    ensures RunFrom(s, steps).throttled == s.throttled
    decreases |steps|
  {
    if steps != [] {
      UnlistedStays(Apply(s, steps[0]), steps[1..]);
    }
  }

  /** How much the writer has to do before it has announced what it can. */
  function WriterRank(s: Flow): nat {
    if s.writer.Measured? then 1
    else if !WillMeasure(s) then 0
    else if s.writer.Idle? then 2
    else |s.writer.rest| + 3
  }

  /** The next step on the way to a full queue: announce all there is to announce, deliver what is in
      flight, send while credit lasts, and only then read the next CONTINUE. */
  function NextOfFlood(s: Flow): Step {
    if s.writer.Measured? then Emit(true)
    else if WillMeasure(s) then
      if s.writer.Idle? then Measure else if s.writer.rest == [] then Finish else Write(|s.writer.rest|)
    else if s.inHand != [] then Enqueue
    else if s.toServer != [] then Look
    else if s.credit > 0 then Send([])
    else Receive
  }

  /** The work of t is less than that of s. */
  predicate FloodWork(t: Flow, s: Flow) {
    || WriterRank(t) < WriterRank(s)
    || (WriterRank(t) == WriterRank(s) && |t.toClient| < |s.toClient|)
    || (WriterRank(t) == WriterRank(s) && |t.toClient| == |s.toClient|
        && 3 * t.credit + 2 * |t.toServer| + |t.inHand| < 3 * s.credit + 2 * |s.toServer| + |s.inHand|)
  }

  /** First the writer announces. */
  lemma AnnouncingFlood(s: Flow)
    requires Inv(s) && s.listed && (s.writer.Measured? || WillMeasure(s))
    ensures var t := Apply(s, NextOfFlood(s)); t.listed && Exposure(t) == Exposure(s) && FloodWork(t, s)
  {
    if s.writer.Measured? {
      AnnouncedAppend(s.toClient, s.writer.message);
    }
  }

  /** Then what is in flight arrives; a packet that finds the queue full ends the flood. */
  lemma ArrivingFlood(s: Flow)
    requires Inv(s) && s.listed && !s.writer.Measured? && !WillMeasure(s) && (s.inHand != [] || s.toServer != [])
    ensures var t := Apply(s, NextOfFlood(s)); if t.listed then Exposure(t) == Exposure(s) && FloodWork(t, s) else t.throttled
  {
  }

  /** Then the client sends, or reads another CONTINUE. */
  lemma SendingFlood(s: Flow)
    requires Inv(s) && s.listed && !s.writer.Measured? && !WillMeasure(s) && s.inHand == [] && s.toServer == []
    requires Exposure(s) > ALLOWANCE
    ensures var t := Apply(s, NextOfFlood(s)); t.listed && Exposure(t) == Exposure(s) && FloodWork(t, s)
  {
    if s.credit == 0 && s.toClient != [] {
      assert Honest(s.toClient[0], s);
    }
  }

  lemma FloodKeepsExposure(s: Flow)
    requires Inv(s) && s.listed && Exposure(s) > ALLOWANCE
    ensures var t := Apply(s, NextOfFlood(s));
      if t.listed then Exposure(t) == Exposure(s) && FloodWork(t, s) else t.throttled
  {
    if s.writer.Measured? || WillMeasure(s) {
      AnnouncingFlood(s);
    } else if s.inHand != [] || s.toServer != [] {
      ArrivingFlood(s);
    } else {
      SendingFlood(s);
    }
  }

  lemma {:induction false} Flood(s: Flow) returns (steps: seq<Step>)
    requires Inv(s) && s.listed && Exposure(s) > ALLOWANCE
    ensures TakesNothing(steps)
    ensures RunFrom(s, steps).throttled
    decreases WriterRank(s), |s.toClient|, 3 * s.credit + 2 * |s.toServer| + |s.inHand|
  {
    var step := NextOfFlood(s);
    var t := Apply(s, step);
    StepInv(s, step);
    FloodKeepsExposure(s);
    if t.listed {
      var rest := Flood(t);
      steps := [step] + rest;
    } else {
      steps := [step];
      assert RunFrom(s, steps) == t;
    }
  }

  /** Exactly when the client, spending only credit it was given, can still be driven into a throttle
      close before the writer takes another packet off the queue, whatever else happens meanwhile: when
      its credit, the CONTINUE packets it has yet to read and the packets already under way add up to
      more than the queue holds. */
  lemma ThrottleExactly(run: seq<Step>)
    requires Run(run).listed
    ensures (exists steps :: TakesNothing(steps) && RunFrom(Run(run), steps).throttled)
            <==> Exposure(Run(run)) > ALLOWANCE
  {
    var s := Run(run);
    RunInv(run);
    if Exposure(s) > ALLOWANCE {
      var steps := Flood(s);
    }
    forall steps | TakesNothing(steps) && RunFrom(s, steps).throttled
      ensures Exposure(s) > ALLOWANCE
    {
      ThrottledOnlyIfExposed(s, steps);
    }
  }

  // ----- and over the whole future -----

  lemma StoppedStays(s: Flow, step: Step)
    requires s.writer.Stopped?
    ensures Apply(s, step).writer.Stopped? && (step.Take? ==> Apply(s, step) == s)
  {
  }

  /** With a stopped writer nothing leaves the queue any more. */
  lemma {:induction false} StoppedThrottle(s: Flow, steps: seq<Step>)
    requires Inv(s) && s.listed && s.writer.Stopped? && RunFrom(s, steps).throttled
    ensures Exposure(s) > ALLOWANCE
    decreases |steps|
  {
    var t := Apply(s, steps[0]);
    StepInv(s, steps[0]);
    StoppedStays(s, steps[0]);
    if !steps[0].Take? {
      ExposureNeverGrows(s, steps[0]);
    }
    if t.listed {
      StoppedThrottle(t, steps[1..]);
    } else {
      UnlistedStays(t, steps[1..]);
      ThrottlesFull(s, steps[0]);
    }
  }

  /** The server's and the channel's own steps take a stream out of the table only by a throttle close. */
  lemma InternalUnlists(s: Flow, step: Step)
    requires Internal(step) && s.listed
    ensures !Apply(s, step).listed ==> Apply(s, step).throttled
  {
  }

  /** A running stream comes to rest, or is throttled on the way. */
  lemma {:induction false} ComesToRest(s: Flow) returns (steps: seq<Step>)
    requires Inv(s) && Running(s) && s.listed
    ensures var t := RunFrom(s, steps); t.throttled || (Inv(t) && Running(t) && t.listed && Quiet(t))
    decreases Work(s)
  {
    steps := [];
    if !Quiet(s) {
      DueProgresses(s);
      InternalUnlists(s, Due(s));
      var t := Apply(s, Due(s));
      if t.listed {
        var rest := ComesToRest(t);
        steps := [Due(s)] + rest;
      } else {
        steps := [Due(s)];
        assert RunFrom(s, steps) == t;
      }
    }
  }

  lemma PacketArrives(s: Flow)
    requires s.listed && Quiet(s) && s.credit > 0
    ensures RunFrom(s, [Send([]), Look, Enqueue])
         == s.(credit := s.credit - 1, sent := s.sent + [[]], queue := [[]], accepted := s.accepted + [[]])
  {
    var b := Apply(Apply(s, Send([])), Look);
    assert b == s.(credit := s.credit - 1, sent := s.sent + [[]], inHand := [[]]);
    RunAppend(s, [Send([]), Look], [Enqueue]);
    RunAppend(s, [Send([])], [Look]);
    assert [Send([]), Look] + [Enqueue] == [Send([]), Look, Enqueue] && [Send([])] + [Look] == [Send([]), Look];
  }

  lemma PacketWritten(s: Flow)
    requires s.writer.Idle? && s.consumed < THRESHOLD && s.queue == [[]]
    ensures RunFrom(s, [Take, Finish]) == s.(queue := [], consumed := s.consumed + 1, finished := s.finished + 1)
  {
    var d := Apply(s, Take);
    assert d == s.(writer := Writing([]), queue := []);
    RunAppend(s, [Take], [Finish]);
    assert [Take] + [Finish] == [Take, Finish];
  }

  /** At rest, one empty packet goes all the way through. */
  lemma OneMorePacket(s: Flow)
    requires Inv(s) && s.listed && Quiet(s) && s.credit > 0
    ensures var t := RunFrom(s, [Send([]), Look, Enqueue, Take, Finish]);
      && Inv(t) && t.listed && t.toServer == [] && t.inHand == [] && t.queue == [] && t.writer.Idle? && t.toClient == []
      && t.consumed == s.consumed + 1 && t.credit == s.credit - 1 && t.crossed == s.crossed
  {
    var steps := [Send([]), Look, Enqueue, Take, Finish];
    RunFromInv(s, steps);
    PacketArrives(s);
    PacketWritten(RunFrom(s, [Send([]), Look, Enqueue]));
    RunAppend(s, [Send([]), Look, Enqueue], [Take, Finish]);
    assert [Send([]), Look, Enqueue] + [Take, Finish] == steps;
  }

  /** From rest the client can bring the writer to its next CONTINUE with credit to spare. */
  lemma {:induction false} BecomesExposed(s: Flow) returns (steps: seq<Step>)
    requires Inv(s) && s.listed && Quiet(s)
    ensures var t := RunFrom(s, steps); Inv(t) && t.listed && Exposure(t) > ALLOWANCE
    decreases THRESHOLD - s.consumed
  {
    var five := [Send([]), Look, Enqueue, Take, Finish];
    AtRest(s);
    OneMorePacket(s);
    var t := RunFrom(s, five);
    AtRestNext(t);
    if t.consumed >= THRESHOLD {
      steps := five;
    } else {
      var rest := BecomesExposed(t);
      steps := five + rest;
      RunAppend(s, five, rest);
    }
  }

  /** At rest all that was not consumed since the last CONTINUE is credit. */
  lemma AtRest(s: Flow)
    requires Inv(s) && s.listed && Quiet(s)
    ensures s.credit + s.consumed == ALLOWANCE + s.crossed
  {
  }

  lemma AtRestNext(t: Flow)
    requires Inv(t) && t.listed && t.toServer == [] && t.inHand == [] && t.queue == [] && t.writer.Idle? && t.toClient == []
    ensures t.consumed >= THRESHOLD ==> Exposure(t) > ALLOWANCE
    ensures t.consumed < THRESHOLD ==> Quiet(t)
  {
  }

  lemma RunningThrottles(s: Flow) returns (steps: seq<Step>)
    requires Inv(s) && s.listed && Running(s)
    ensures RunFrom(s, steps).throttled
  {
    steps := ComesToRest(s);
    var t := RunFrom(s, steps);
    if !t.throttled {
      var more := BecomesExposed(t);
      var flood := Flood(RunFrom(t, more));
      RunAppend(t, more, flood);
      RunAppend(s, steps, more + flood);
      steps := steps + (more + flood);
    }
  }

  lemma UnstoppedThrottles(s: Flow) returns (steps: seq<Step>)
    requires Inv(s) && s.listed && !s.writer.Stopped?
    ensures RunFrom(s, steps).throttled
  {
    if s.writer.AwaitingDial? {
      StepInv(s, DialDone(true));
      var rest := RunningThrottles(Apply(s, DialDone(true)));
      steps := [DialDone(true)] + rest;
    } else {
      steps := RunningThrottles(s);
    }
  }

  /** Exactly when an open stream can ever be throttled, with a client that spends only the credit it was
      given: while its writer has not stopped, always; after that, if what is under way is more than the
      queue holds. */
  lemma ThrottleEver(run: seq<Step>)
    requires Run(run).listed
    ensures (exists steps :: RunFrom(Run(run), steps).throttled) <==> !Run(run).writer.Stopped? || Exposure(Run(run)) > ALLOWANCE
  {
    var s := Run(run);
    RunInv(run);
    if !s.writer.Stopped? {
      var steps := UnstoppedThrottles(s);
    } else {
      if Exposure(s) > ALLOWANCE {
        var steps := Flood(s);
      }
      forall steps | RunFrom(s, steps).throttled
        ensures Exposure(s) > ALLOWANCE
      {
        StoppedThrottle(s, steps);
      }
    }
  }

  // ----- a client that respects its credit can be throttled -----

  function Empties(n: nat): (r: seq<Bytes>)
    ensures |r| == n && forall i :: 0 <= i < n ==> r[i] == []
  {
    seq(n, _ => [])
  }

  /** After `k` empty packets were sent and the first `d` of them written. */
  function Burst(k: nat, d: nat): Flow
    requires d <= k <= ALLOWANCE
  {
    Flow(ALLOWANCE - k, Empties(k - d), [], true, false, [], Idle, d, [], [],
         Empties(k), Empties(d), d, Continue(ALLOWANCE, 0, 0), 0)
  }

  lemma {:induction false} BurstSent(k: nat) returns (steps: seq<Step>)
    requires k <= ALLOWANCE
    ensures Run(steps) == Burst(k, 0)
  {
    if k == 0 {
      steps := [DialDone(true)];
    } else {
      var before := BurstSent(k - 1);
      steps := before + [Send([])];
      RunAppend(START, before, [Send([])]);
      assert Empties(k - 1) + [[]] == Empties(k);
    }
  }

  lemma BurstWritten(k: nat, d: nat)
    requires d < k <= ALLOWANCE && d < THRESHOLD
    ensures RunFrom(Burst(k, d), [Look, Enqueue, Take, Finish]) == Burst(k, d + 1)
  {
    assert Empties(k - d)[1..] == Empties(k - d - 1);
    assert Empties(d) + [[]] == Empties(d + 1);
    var a := Apply(Burst(k, d), Look);
    var b := Apply(a, Enqueue);
    var c := Apply(b, Take);
    assert c.writer == Writing([]) && c.queue == [];
    RunAppend(Burst(k, d), [Look, Enqueue], [Take, Finish]);
  }

  lemma {:induction false} BurstRun(k: nat, d: nat) returns (steps: seq<Step>)
    requires d <= k <= ALLOWANCE && d <= THRESHOLD
    ensures Run(steps) == Burst(k, d)
  {
    if d == 0 {
      steps := BurstSent(k);
    } else {
      var before := BurstRun(k, d - 1);
      steps := before + [Look, Enqueue, Take, Finish];
      RunAppend(START, before, [Look, Enqueue, Take, Finish]);
      BurstWritten(k, d - 1);
    }
  }

  /** Respecting the credit is not enough: there is a run in which the client never sends without
      credit and the server still closes the stream with the throttle reason. */
  lemma HonestClientThrottled()
    ensures exists steps :: Run(steps).throttled
  {
    var run := BurstRun(THRESHOLD, THRESHOLD);
    RunInv(run);
    var flood := Flood(Run(run));
    RunAppend(START, run, flood);
    assert Run(run + flood).throttled;
  }

  // ----- pace -----

  /** Every 32nd packet that was written is acknowledged, and no other. */
  ghost predicate Paced(s: Flow) {
    && s.last.finished % 32 == 0
    && (forall j :: 0 <= j < |s.toClient| ==> s.toClient[j].finished == s.last.finished + 32 * (j + 1))
    && s.finished == s.last.finished + 32 * |s.toClient| + s.consumed
    && s.consumed <= 32
    && (s.writer.Writing? ==> s.consumed < 32)
    && (s.writer.Measured? ==> s.consumed == 32 && s.writer.message.finished == s.finished)
  }

  lemma PacedMessage(s: Flow, step: Step)
    requires Paced(s) && (step.Emit? || step.Receive?)
    ensures Paced(Apply(s, step))
  {
    if step.Receive? && Apply(s, step) != s {
      assert forall j :: 0 <= j < |s.toClient[1..]| ==> s.toClient[1..][j] == s.toClient[j + 1];
    }
  }

  lemma PacedStep(s: Flow, step: Step)
    requires Paced(s)
    ensures Paced(Apply(s, step))
  {
    if step.Emit? || step.Receive? {
      PacedMessage(s, step);
    } else {
      assert Apply(s, step).toClient == s.toClient && Apply(s, step).last == s.last;
    }
  }

  lemma {:induction false} RunPaced(s: Flow, steps: seq<Step>)
    requires Paced(s)
    ensures Paced(RunFrom(s, steps))
    decreases |steps|
  {
    if steps != [] {
      PacedStep(s, steps[0]);
      RunPaced(Apply(s, steps[0]), steps[1..]);
    }
  }

  /** In every run the client hears of every 32nd written packet and of no other, and the writer is never more
      than 32 packets ahead of the CONTINUE packets it has sent. */
  lemma ContinuePaced(run: seq<Step>)
    ensures var s := Run(run);
      && s.last.finished % 32 == 0
      && (forall j :: 0 <= j < |s.toClient| ==> s.toClient[j].finished == s.last.finished + 32 * (j + 1))
      && s.last.finished + 32 * |s.toClient| <= s.finished <= s.last.finished + 32 * |s.toClient| + 32
  {
    RunPaced(START, run);
  }

  // ----- a stopped writer -----

  lemma StoppedWrites(s: Flow, step: Step)
    requires s.writer.Stopped?
    ensures var t := Apply(s, step); t.writer == s.writer && t.target == s.target && t.finished == s.finished
  {
  }

  lemma {:induction false} StoppedForGood(s: Flow, steps: seq<Step>)
    requires s.writer.Stopped?
    ensures var t := RunFrom(s, steps); t.writer == s.writer && t.target == s.target && t.finished == s.finished
    decreases |steps|
  {
    if steps != [] {
      StoppedWrites(s, steps[0]);
      StoppedForGood(Apply(s, steps[0]), steps[1..]);
    }
  }

  /** A write that fails after n bytes, and an idle writer that sees its context done, are the end: whatever happens
      after, the target has got those n bytes, or nothing more. */
  lemma StopIsFinal(s: Flow, n: nat, steps: seq<Step>)
    ensures s.writer.Writing? && s.writer.rest != [] && n <= |s.writer.rest| ==>
      RunFrom(Apply(s, WriteFails(n)), steps).target == s.target + s.writer.rest[..n]
    ensures s.writer.Writing? && s.writer.rest != [] && n <= |s.writer.rest| ==>
      RunFrom(Apply(s, WriteFails(n)), steps).writer == Stopped(true)
    ensures s.writer.Idle? ==> RunFrom(Apply(s, Quit), steps).target == s.target
    ensures s.writer.Idle? ==> RunFrom(Apply(s, Quit), steps).writer == Stopped(false)
  {
    if s.writer.Writing? && s.writer.rest != [] && n <= |s.writer.rest| {
      StoppedForGood(Apply(s, WriteFails(n)), steps);
    }
    if s.writer.Idle? {
      StoppedForGood(Apply(s, Quit), steps);
    }
  }
}
