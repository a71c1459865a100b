/** `writeAll` and one turn of `writeLoop`, as the imperative code runs them.  Each is proved to be a
    sequence of steps of the stream machine, so the theorems about runs speak about this code. */
module WispWriter {
  import opened ByteSeq
  import opened WispFlow

  /** A target socket.  A Write call may take any part of its argument and may fail. */
  class Connection {
    var received: Bytes

    constructor ()
      ensures received == []
    {
      received := [];
    }

    method Write(data: Bytes) returns (written: nat, failed: bool)
      modifies this
      ensures written <= |data|
      ensures received == old(received) + data[..written]
    {
      written :| written <= |data|;
      failed := *;
      received := received + data[..written];
    }
  }

  /** Steps only the writer takes. */
  predicate WriterStep(step: Step) {
    !step.Send? && !step.Look? && !step.Enqueue? && !step.DialDone? && !step.Receive? && !step.Unlist?
  }

  method WriteAll(connection: Connection, data: Bytes, ghost s: Flow) returns (ok: bool, ghost steps: seq<Step>)
    requires s.writer == Writing(data) && s.target == connection.received
    modifies connection
    ensures ok ==> connection.received == old(connection.received) + data
    ensures !ok ==> old(connection.received) <= connection.received <= old(connection.received) + data
    ensures forall i :: 0 <= i < |steps| ==> WriterStep(steps[i])
    ensures RunFrom(s, steps) == s.(writer := if ok then Writing([]) else Stopped(true), target := connection.received)
  {
    var rest := data;
    steps := [];
    while |rest| > 0
      invariant |rest| <= |data| && rest == data[|data| - |rest|..]
      invariant connection.received == old(connection.received) + data[..|data| - |rest|]
      invariant forall i :: 0 <= i < |steps| ==> WriterStep(steps[i])
      invariant RunFrom(s, steps) == s.(writer := Writing(rest), target := connection.received)
      decreases |rest|
    {
      ghost var now := RunFrom(s, steps);
      var written, failed := connection.Write(rest);
      assert old(connection.received) + data[..|data| - |rest|] + rest[..written]
          == old(connection.received) + data[..|data| - |rest| + written];
      if failed || written == 0 {
        RunAppend(s, steps, [WriteFails(written)]);
        steps := steps + [WriteFails(written)];
        return false, steps;
      }
      RunAppend(s, steps, [Write(written)]);
      steps := steps + [Write(written)];
      rest := rest[written..];
    }
    assert data[..|data|] == data;
    return true, steps;
  }

  class StreamWriter {
    const connection: Connection
    var write: seq<Bytes>
    var consumed: nat
    var emitted: seq<nat>      // values of the CONTINUE packets handed to the channel

    constructor (connection: Connection)
      ensures this.connection == connection && write == [] && consumed == 0 && emitted == []
    {
      this.connection := connection;
      write, consumed, emitted := [], 0, [];
    }

    /** The fields that `writeLoop` shares with the stream machine. */
    ghost predicate Shows(s: Flow)
      reads this, connection
    {
      write == s.queue && consumed == s.consumed && connection.received == s.target
    }

    /** One turn of the loop with a packet in the queue: write it whole, count it, and after the 32nd
        announce the room left.  `sendOk` is the outcome of `sendFrame`. */
    method ServeOne(sendOk: bool, ghost s: Flow) returns (ok: bool, ghost steps: seq<Step>)
      requires Shows(s) && s.writer.Idle? && consumed < THRESHOLD && 0 < |write| <= ALLOWANCE
      modifies this, connection
      ensures forall i :: 0 <= i < |steps| ==> WriterStep(steps[i])
      ensures var t := RunFrom(s, steps);
        && Shows(t)
        && (if ok then t.writer.Idle? && t.consumed < THRESHOLD && t.finished == s.finished + 1 else t.writer.Stopped?)
        && (t.toClient == s.toClient ==> emitted == old(emitted))
        && (t.toClient != s.toClient ==>
              exists c :: t.toClient == s.toClient + [c] && emitted == old(emitted) + [c.value])
    {
      var payload := write[0];
      write := write[1..];
      ghost var writes;
      ok, writes := WriteAll(connection, payload, Apply(s, Take));
      TurnWritten(s, writes, ok, connection.received);
      steps := [Take] + writes + (if ok then [Finish] else []);
      if ok {
        consumed := consumed + 1;
        if consumed >= THRESHOLD {
          var remaining := ALLOWANCE - |write|;
          TurnMeasured(RunFrom(s, steps), sendOk);
          RunAppend(s, steps, [Measure, Emit(sendOk)]);
          steps := steps + [Measure, Emit(sendOk)];
          if sendOk {
            emitted := emitted + [remaining];
            consumed := 0;
          } else {
            ok := false;
          }
        }
      }
    }
  }

  lemma TurnWritten(s: Flow, writes: seq<Step>, ok: bool, received: Bytes)
    requires s.writer.Idle? && s.consumed < THRESHOLD && s.queue != []
    requires var taken := Apply(s, Take);
      RunFrom(taken, writes) == taken.(writer := if ok then Writing([]) else Stopped(true), target := received)
    ensures RunFrom(s, [Take] + writes + (if ok then [Finish] else [])) ==
      if ok then s.(queue := s.queue[1..], target := received, consumed := s.consumed + 1, finished := s.finished + 1)
      else s.(queue := s.queue[1..], target := received, writer := Stopped(true))
  {
    RunAppend(s, [Take], writes);
    RunAppend(s, [Take] + writes, if ok then [Finish] else []);
  }

  lemma TurnMeasured(s: Flow, sendOk: bool)
    requires s.writer.Idle? && s.consumed >= THRESHOLD && |s.queue| <= ALLOWANCE
    ensures RunFrom(s, [Measure, Emit(sendOk)]) ==
      if sendOk then s.(consumed := 0, toClient := s.toClient + [Continue(ALLOWANCE - |s.queue|, |s.accepted|, s.finished)])
      else s.(writer := Stopped(false))
  {
    RunAppend(s, [Measure], [Emit(sendOk)]);
  }
}
