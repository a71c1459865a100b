/** All streams of one Wisp server at once: the stream table of `WispServer` beside one data path of
    `WispFlow` for each stream.  Where the two speak of the same thing, a step of one is a step of the
    other, so what is proved of one stream holds of every stream of every server run. */
module WispStreams {
  import opened ByteSeq
  import opened WispFrame
  import F = WispFlow
  import W = WispServer

  datatype Net = Net(server: W.Server, flows: seq<F.Flow>)

  const START := Net(W.START, [])

  datatype Step =
    | Open(id: StreamId)
    | OnServer(w: W.Step)
    | OnFlow(i: nat, f: F.Step)

  /** The newest stream of its ID; what the client sends under the ID is for this one. */
  predicate Newest(s: W.Server, i: nat) {
    i < |s.all| && forall k :: i < k < |s.all| ==> s.all[k].id != s.all[i].id
  }

  /** The channel is ordered and messages are handled one at a time: a CONNECT is handled after all DATA
      that was sent before it under the same ID. */
  predicate Arrived(n: Net, id: StreamId) {
    forall k :: 0 <= k < |n.flows| && k < |n.server.all| && n.server.all[k].id == id ==> n.flows[k].toServer == [] && n.flows[k].inHand == []
  }

  function Opens(n: Net, id: StreamId): Net {
    if !Arrived(n, id) then n
    else
      var server := W.Apply(n.server, W.Step.Open(id));
      Net(server, if |server.all| > |n.server.all| then n.flows + [F.START] else n.flows)
  }

  /** Streams are opened, fed and drained by the other two kinds of steps. */
  predicate Lone(w: W.Step) {
    !w.Open? && !w.Accept? && !w.Take?
  }

  /** What a step of the server means for the data path of its stream: the dial ends, or the table
      forgets the stream. */
  function Echo(before: W.Stream, after: W.Stream, w: W.Step, flow: F.Flow): F.Flow {
    if w.Publish? && before.dial.Dialed? then F.Apply(flow, F.DialDone(after.conn))
    else if w.Delete? && before.phase == W.Cancelled then F.Apply(flow, F.Unlist)
    else flow
  }

  function Serves(n: Net, w: W.Step): Net {
    if !Lone(w) then n
    else
      var server := W.Apply(n.server, w);
      if W.AboutStream(w) && w.i < |n.server.all| && w.i < |n.flows| && w.i < |server.all| then
        Net(server, n.flows[w.i := Echo(n.server.all[w.i], server.all[w.i], w, n.flows[w.i])])
      else n.(server := server)
  }

  /** What a step of a data path means for the server: a packet is queued or taken, or a full queue closes
      the stream. */
  function ServerSide(server: W.Server, i: nat, flow: F.Flow, f: F.Step): W.Server {
    if f.Enqueue? && flow.inHand != [] then
      if |flow.queue| < F.ALLOWANCE then W.Apply(server, W.Accept(i, flow.inHand[0]))
      else W.Apply(W.Apply(server, W.Cancel(i, true, W.CLOSE_THROTTLED)), W.Delete(i))
    else if f.Take? && F.Apply(flow, f) != flow then W.Apply(server, W.Take(i))
    else server
  }

  function Flows(n: Net, i: nat, f: F.Step): Net {
    if i >= |n.flows| || f.DialDone? || f.Unlist? || (f.Send? && !Newest(n.server, i)) then n
    else Net(ServerSide(n.server, i, n.flows[i], f), n.flows[i := F.Apply(n.flows[i], f)])
  }

  function Apply(n: Net, step: Step): Net {
    match step
    case Open(id) => Opens(n, id)
    case OnServer(w) => Serves(n, w)
    case OnFlow(i, f) => Flows(n, i, f)
  }

  function RunFrom(n: Net, steps: seq<Step>): Net
    decreases |steps|
  {
    if steps == [] then n else RunFrom(Apply(n, steps[0]), steps[1..])
  }

  function Run(steps: seq<Step>): Net {
    RunFrom(START, steps)
  }

  // ----- agreement -----

  /** The two views of one stream. */
  predicate Agree(t: W.Stream, flow: F.Flow) {
    && t.queue == flow.queue
    && (flow.listed <==> W.Listed(t.phase))
    && (flow.writer.AwaitingDial? <==> !t.dial.Published?)
  }

  ghost predicate Agreement(all: seq<W.Stream>, flows: seq<F.Flow>) {
    |flows| == |all| && forall i :: 0 <= i < |flows| ==> Agree(all[i], flows[i]) && F.Inv(flows[i])
  }

  ghost predicate Inv(n: Net) {
    W.Inv(n.server) && Agreement(n.server.all, n.flows)
  }

  lemma DialEnds(t: W.Stream, flow: F.Flow, w: W.Step, done: bool)
    requires Agree(t, flow) && w.Publish? && t.dial.Dialed?
    ensures var u := W.Act(t, w, done); Agree(u, F.Apply(flow, F.DialDone(u.conn)))
  {
  }

  lemma StreamLeaves(t: W.Stream, flow: F.Flow, w: W.Step, done: bool)
    requires Agree(t, flow) && w.Delete? && t.phase == W.Cancelled
    ensures Agree(W.Act(t, w, done), F.Apply(flow, F.Unlist))
  {
  }

  lemma NothingSeen(t: W.Stream, flow: F.Flow, w: W.Step, done: bool)
    requires Agree(t, flow) && Lone(w)
    requires !(w.Publish? && t.dial.Dialed?) && !(w.Delete? && t.phase == W.Cancelled)
    ensures Agree(W.Act(t, w, done), flow)
  {
  }

  lemma EchoAgrees(t: W.Stream, flow: F.Flow, w: W.Step, done: bool)
    requires Agree(t, flow) && F.Inv(flow) && Lone(w)
    ensures var u := W.Act(t, w, done); var g := Echo(t, u, w, flow); Agree(u, g) && F.Inv(g)
  {
    if w.Publish? && t.dial.Dialed? {
      DialEnds(t, flow, w, done);
      F.StepInv(flow, F.DialDone(W.Act(t, w, done).conn));
    } else if w.Delete? && t.phase == W.Cancelled {
      StreamLeaves(t, flow, w, done);
      F.StepInv(flow, F.Unlist);
    } else {
      NothingSeen(t, flow, w, done);
    }
  }

  lemma OneChanges(all: seq<W.Stream>, flows: seq<F.Flow>, i: nat, u: W.Stream, g: F.Flow)
    requires Agreement(all, flows) && i < |all| && Agree(u, g) && F.Inv(g)
    ensures Agreement(all[i := u], flows[i := g])
  {
  }

  lemma ServesShape(n: Net, w: W.Step)
    requires |n.flows| == |n.server.all| && Lone(w) && W.AboutStream(w) && w.i < |n.server.all|
    ensures var t := n.server.all[w.i]; var u := W.Act(t, w, W.ContextDone(n.server, w.i));
      && Serves(n, w).server.all == n.server.all[w.i := u]
      && Serves(n, w).flows == n.flows[w.i := Echo(t, u, w, n.flows[w.i])]
  {
    W.StreamStepShape(n.server, w);
  }

  lemma StreamServed(n: Net, w: W.Step)
    requires Agreement(n.server.all, n.flows) && Lone(w) && W.AboutStream(w) && w.i < |n.server.all|
    ensures Agreement(Serves(n, w).server.all, Serves(n, w).flows)
  {
    var t, done := n.server.all[w.i], W.ContextDone(n.server, w.i);
    var u := W.Act(t, w, done);
    EchoAgrees(t, n.flows[w.i], w, done);
    OneChanges(n.server.all, n.flows, w.i, u, Echo(t, u, w, n.flows[w.i]));
    ServesShape(n, w);
  }

  lemma ServesKeeps(n: Net, w: W.Step)
    requires Inv(n)
    ensures Inv(Serves(n, w))
  {
    if Lone(w) {
      W.StepInv(n.server, w);
      if W.AboutStream(w) && w.i < |n.server.all| {
        StreamServed(n, w);
      } else {
        SameStreams(n.server, w);
      }
    }
  }

  lemma SameStreams(s: W.Server, w: W.Step)
    requires Lone(w) && (W.AboutStream(w) ==> w.i >= |s.all|)
    ensures W.Apply(s, w).all == s.all
  {
  }

  /** Steps that neither feed nor drain the queue leave what the server sees alone. */
  lemma QuietFlow(flow: F.Flow, f: F.Step)
    requires !f.Enqueue? && !f.Take? && !f.DialDone? && !f.Unlist?
    ensures var g := F.Apply(flow, f);
      g.queue == flow.queue && g.listed == flow.listed && (g.writer.AwaitingDial? <==> flow.writer.AwaitingDial?)
  {
  }

  lemma FeedAgrees(t: W.Stream, flow: F.Flow, i: nat, done: bool)
    requires Agree(t, flow) && F.Inv(flow) && flow.inHand != [] && |flow.queue| < F.ALLOWANCE
    ensures Agree(W.Act(t, W.Accept(i, flow.inHand[0]), done), F.Apply(flow, F.Enqueue))
  {
    assert flow.inHand == [flow.inHand[0]];
  }

  lemma DrainAgrees(t: W.Stream, flow: F.Flow, i: nat, done: bool)
    requires Agree(t, flow) && F.Apply(flow, F.Take) != flow
    ensures Agree(W.Act(t, W.Take(i), done), F.Apply(flow, F.Take))
  {
  }

  /** A full queue takes the stream out of the table on both sides. */
  lemma OverflowAgrees(s: W.Server, i: nat, flow: F.Flow)
    requires W.Inv(s) && i < |s.all| && Agree(s.all[i], flow) && flow.inHand != [] && |flow.queue| >= F.ALLOWANCE
    ensures var t := ServerSide(s, i, flow, F.Enqueue);
      && W.Inv(t) && |t.all| == |s.all| && Agree(t.all[i], F.Apply(flow, F.Enqueue))
      && (forall k :: 0 <= k < |s.all| && k != i ==> t.all[k] == s.all[k])
      && (forall k :: 0 <= k < |s.all| ==> t.all[k].id == s.all[k].id)
  {
    var s1 := W.Apply(s, W.Cancel(i, true, W.CLOSE_THROTTLED));
    W.StepInv(s, W.Cancel(i, true, W.CLOSE_THROTTLED));
    W.StepInv(s1, W.Delete(i));
    W.StreamStepShape(s, W.Cancel(i, true, W.CLOSE_THROTTLED));
    W.StreamStepShape(s1, W.Delete(i));
  }

  /** The server side of a data path step touches its own stream only. */
  lemma ServerSideKeeps(s: W.Server, i: nat, flow: F.Flow, f: F.Step)
    requires W.Inv(s) && i < |s.all| && Agree(s.all[i], flow) && F.Inv(flow) && !f.DialDone? && !f.Unlist?
    ensures var t := ServerSide(s, i, flow, f);
      && W.Inv(t) && |t.all| == |s.all| && Agree(t.all[i], F.Apply(flow, f))
      && (forall k :: 0 <= k < |s.all| && k != i ==> t.all[k] == s.all[k])
      && (forall k :: 0 <= k < |s.all| ==> t.all[k].id == s.all[k].id)
  {
    if f.Enqueue? && flow.inHand != [] {
      if |flow.queue| < F.ALLOWANCE {
        var w := W.Accept(i, flow.inHand[0]);
        W.StepInv(s, w);
        W.StreamStepShape(s, w);
        FeedAgrees(s.all[i], flow, i, W.ContextDone(s, i));
      } else {
        OverflowAgrees(s, i, flow);
      }
    } else if f.Take? && F.Apply(flow, f) != flow {
      W.StepInv(s, W.Take(i));
      W.StreamStepShape(s, W.Take(i));
      DrainAgrees(s.all[i], flow, i, W.ContextDone(s, i));
    } else if !f.Take? && !f.Enqueue? {
      QuietFlow(flow, f);
    }
  }

  lemma FlowsKeeps(n: Net, i: nat, f: F.Step)
    requires Inv(n)
    ensures Inv(Flows(n, i, f))
  {
    if i < |n.flows| && !f.DialDone? && !f.Unlist? {
      ServerSideKeeps(n.server, i, n.flows[i], f);
      F.StepInv(n.flows[i], f);
    }
  }

  lemma OneMore(all: seq<W.Stream>, flows: seq<F.Flow>, id: StreamId)
    requires Agreement(all, flows)
    ensures Agreement(all + [W.Fresh(id)], flows + [F.START])
  {
    F.StartInv();
  }

  lemma OpensKeeps(n: Net, id: StreamId)
    requires Inv(n)
    ensures Inv(Opens(n, id))
  {
    W.OpenInv(n.server, id);
    W.OpenShape(n.server, id);
    OneMore(n.server.all, n.flows, id);
  }

  lemma StepInv(n: Net, step: Step)
    requires Inv(n)
    ensures Inv(Apply(n, step))
  {
    match step
    case Open(id) => OpensKeeps(n, id);
    case OnServer(w) => ServesKeeps(n, w);
    case OnFlow(i, f) => FlowsKeeps(n, i, f);
  }

  lemma {:induction false} RunFromInv(n: Net, steps: seq<Step>)
    requires Inv(n)
    ensures Inv(RunFrom(n, steps))
    decreases |steps|
  {
    if steps != [] {
      StepInv(n, steps[0]);
      RunFromInv(Apply(n, steps[0]), steps[1..]);
    }
  }

  // ----- projection -----

  ghost predicate IsServerRun(s: W.Server) {
    exists steps :: W.Run(steps) == s
  }

  ghost predicate IsFlowRun(flow: F.Flow) {
    exists steps :: F.Run(steps) == flow
  }

  lemma ServerRunStep(s: W.Server, w: W.Step)
    requires IsServerRun(s)
    ensures IsServerRun(W.Apply(s, w))
  {
    var steps :| W.Run(steps) == s;
    W.RunAppend(W.START, steps, [w]);
    assert W.Run(steps + [w]) == W.Apply(s, w);
  }

  lemma FlowRunStep(flow: F.Flow, f: F.Step)
    requires IsFlowRun(flow)
    ensures IsFlowRun(F.Apply(flow, f))
  {
    var steps :| F.Run(steps) == flow;
    F.RunAppend(F.START, steps, [f]);
    assert F.Run(steps + [f]) == F.Apply(flow, f);
  }

  ghost predicate Projects(n: Net) {
    IsServerRun(n.server) && forall i :: 0 <= i < |n.flows| ==> IsFlowRun(n.flows[i])
  }

  lemma ServerSideRuns(s: W.Server, i: nat, flow: F.Flow, f: F.Step)
    requires IsServerRun(s)
    ensures IsServerRun(ServerSide(s, i, flow, f))
  {
    if f.Enqueue? && flow.inHand != [] {
      ServerRunStep(s, W.Accept(i, flow.inHand[0]));
    }
    ServerRunStep(s, W.Take(i));
    ServerRunStep(s, W.Cancel(i, true, W.CLOSE_THROTTLED));
    ServerRunStep(W.Apply(s, W.Cancel(i, true, W.CLOSE_THROTTLED)), W.Delete(i));
  }

  lemma EchoRuns(before: W.Stream, after: W.Stream, w: W.Step, flow: F.Flow)
    requires IsFlowRun(flow)
    ensures IsFlowRun(Echo(before, after, w, flow))
  {
    FlowRunStep(flow, F.DialDone(after.conn));
    FlowRunStep(flow, F.Unlist);
  }

  lemma ProjectsStep(n: Net, step: Step)
    requires Projects(n)
    ensures Projects(Apply(n, step))
  {
    match step
    case Open(id) =>
      ServerRunStep(n.server, W.Step.Open(id));
      assert F.Run([]) == F.START;
    case OnServer(w) =>
      ServerRunStep(n.server, w);
      if W.AboutStream(w) && w.i < |n.server.all| && w.i < |n.flows| && w.i < |W.Apply(n.server, w).all| {
        EchoRuns(n.server.all[w.i], W.Apply(n.server, w).all[w.i], w, n.flows[w.i]);
      }
    case OnFlow(i, f) =>
      if i < |n.flows| {
        ServerSideRuns(n.server, i, n.flows[i], f);
        FlowRunStep(n.flows[i], f);
      }
  }

  lemma {:induction false} RunProjects(n: Net, steps: seq<Step>)
    requires Projects(n)
    ensures Projects(RunFrom(n, steps))
    decreases |steps|
  {
    if steps != [] {
      ProjectsStep(n, steps[0]);
      RunProjects(Apply(n, steps[0]), steps[1..]);
    }
  }

  /** In every run of a whole server, the server by itself is a run of the server machine, every stream by
      itself is a run of the stream machine, and the two agree on the queue, on whether the stream is
      listed and on whether its dial has ended. */
  lemma Projection(steps: seq<Step>)
    ensures var n := Run(steps);
      && IsServerRun(n.server) && |n.flows| == |n.server.all|
      && forall i :: 0 <= i < |n.flows| ==> IsFlowRun(n.flows[i]) && Agree(n.server.all[i], n.flows[i])
  {
    assert W.Run([]) == W.START;
    RunProjects(START, steps);
    RunFromInv(START, steps);
  }

  /** So order and credit hold of every stream of a server, said of the server's own queues. */
  lemma EveryStreamDelivers(steps: seq<Step>, i: nat)
    requires i < |Run(steps).flows|
    ensures i < |Run(steps).server.all|
    ensures var n := Run(steps); var flow := n.flows[i]; var t := n.server.all[i];
      && flow.accepted <= flow.sent && flow.target <= Concat(flow.accepted)
      && |t.queue| <= |flow.accepted| && t.queue == flow.accepted[|flow.accepted| - |t.queue|..]
      && (W.Listed(t.phase) && flow.toClient == [] ==>
            flow.credit + |flow.toServer| + |flow.inHand| + |t.queue| + F.Held(flow.writer) + flow.consumed == 64 + flow.crossed)
  {
    Projection(steps);
    RunFromInv(START, steps);
    var flow := Run(steps).flows[i];
    var run :| F.Run(run) == flow;
    F.FifoDelivery(run);
    F.CreditConservation(run);
    assert F.Inv(flow);
  }

  // ----- addressing -----

  /** A stream that was opened after another one of its ID found that one gone from the table. */
  ghost predicate Succession(s: W.Server) {
    forall i, k :: 0 <= k < i < |s.all| && s.all[k].id == s.all[i].id ==> !W.Listed(s.all[k].phase)
  }

  ghost predicate Addressed(n: Net) {
    Succession(n.server) && forall i :: 0 <= i < |n.flows| && n.flows[i].toServer != [] ==> Newest(n.server, i)
  }

  /** No step lists a stream again or changes its ID. */
  ghost predicate NoneRelisted(a: W.Server, b: W.Server) {
    |a.all| == |b.all| && forall i :: 0 <= i < |a.all| ==> b.all[i].id == a.all[i].id && (W.Listed(b.all[i].phase) ==> W.Listed(a.all[i].phase))
  }

  lemma ServerSteady(s: W.Server, w: W.Step)
    requires !w.Open?
    ensures NoneRelisted(s, W.Apply(s, w))
  {
    if W.AboutStream(w) && w.i < |s.all| {
      W.StreamStepShape(s, w);
    }
  }

  lemma SideSteady(s: W.Server, i: nat, flow: F.Flow, f: F.Step)
    ensures NoneRelisted(s, ServerSide(s, i, flow, f))
  {
    if f.Enqueue? && flow.inHand != [] {
      ServerSteady(s, W.Accept(i, flow.inHand[0]));
    }
    ServerSteady(s, W.Take(i));
    ServerSteady(s, W.Cancel(i, true, W.CLOSE_THROTTLED));
    ServerSteady(W.Apply(s, W.Cancel(i, true, W.CLOSE_THROTTLED)), W.Delete(i));
  }

  lemma FlowSends(flow: F.Flow, f: F.Step)
    requires !f.Send?
    ensures F.Apply(flow, f).toServer != [] ==> flow.toServer != []
  {
  }

  lemma AddressedSteady(n: Net, m: Net)
    requires Addressed(n) && NoneRelisted(n.server, m.server) && |m.flows| == |n.flows| <= |n.server.all|
    requires forall i :: 0 <= i < |m.flows| && m.flows[i].toServer != [] ==> n.flows[i].toServer != [] || Newest(n.server, i)
    ensures Addressed(m)
  {
  }

  lemma AddressedOpen(n: Net, id: StreamId)
    requires W.TableExact(n.server) && |n.flows| == |n.server.all| && Addressed(n)
    ensures Addressed(Opens(n, id))
  {
    var m := Opens(n, id);
    if |m.server.all| > |n.server.all| {
      assert m.server.all == n.server.all + [W.Fresh(id)];
      forall k | 0 <= k < |n.server.all| && n.server.all[k].id == id
        ensures !W.Listed(n.server.all[k].phase)
      {
        assert id !in n.server.streams;
      }
    }
  }

  lemma EchoSends(before: W.Stream, after: W.Stream, w: W.Step, flow: F.Flow)
    ensures Echo(before, after, w, flow).toServer == flow.toServer
  {
  }

  lemma AddressedServe(n: Net, w: W.Step)
    requires |n.flows| == |n.server.all| && Addressed(n)
    ensures Addressed(Serves(n, w))
  {
    if Lone(w) {
      ServerSteady(n.server, w);
      if W.AboutStream(w) && w.i < |n.server.all| {
        EchoSends(n.server.all[w.i], W.Apply(n.server, w).all[w.i], w, n.flows[w.i]);
      }
      AddressedSteady(n, Serves(n, w));
    }
  }

  lemma AddressedFlow(n: Net, i: nat, f: F.Step)
    requires |n.flows| == |n.server.all| && Addressed(n)
    ensures Addressed(Flows(n, i, f))
  {
    if i < |n.flows| {
      SideSteady(n.server, i, n.flows[i], f);
      if !f.Send? { FlowSends(n.flows[i], f); }
      AddressedSteady(n, Flows(n, i, f));
    }
  }

  lemma AddressedStep(n: Net, step: Step)
    requires Inv(n) && Addressed(n)
    ensures Addressed(Apply(n, step))
  {
    match step
    case Open(id) => AddressedOpen(n, id);
    case OnServer(w) => AddressedServe(n, w);
    case OnFlow(i, f) => AddressedFlow(n, i, f);
  }

  lemma {:induction false} RunAddressed(n: Net, steps: seq<Step>)
    requires Inv(n) && Addressed(n)
    ensures Addressed(RunFrom(n, steps))
    decreases |steps|
  {
    if steps != [] {
      StepInv(n, steps[0]);
      AddressedStep(n, steps[0]);
      RunAddressed(Apply(n, steps[0]), steps[1..]);
    }
  }

  /** DATA never reaches another incarnation: although `onMessage` finds streams by their ID and IDs may be
      used again, DATA on its way to a stream finds that stream in the table, or nothing. */
  lemma DataFindsItsStream(steps: seq<Step>, i: nat)
    requires i < |Run(steps).flows| && Run(steps).flows[i].toServer != []
    ensures i < |Run(steps).server.all|
    ensures var n := Run(steps); var id := n.server.all[i].id;
      if n.flows[i].listed then id in n.server.streams && n.server.streams[id] == i else id !in n.server.streams
  {
    RunFromInv(START, steps);
    RunAddressed(START, steps);
    var n := Run(steps);
    var id := n.server.all[i].id;
    if id in n.server.streams {
      var k := n.server.streams[id];
      assert k < |n.server.all| && n.server.all[k].id == id && W.Listed(n.server.all[k].phase);
      assert k == i;
    }
  }
}
