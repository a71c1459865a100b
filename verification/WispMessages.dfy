/** A message that `onMessage` handles is a run of the whole server with its data paths: the theorems about
    order and credit speak of what the handler does with real packets. */
module WispMessages {
  import opened ByteSeq
  import opened WispFrame
  import opened WispStreams
  import opened WispPackets
  import F = WispFlow
  import W = WispServer

  /** The stream's oldest DATA packet in transit is this one, and it is the next message. */
  predicate Arrives(n: Net, i: nat, payload: Bytes) {
    i < |n.flows| && n.flows[i].inHand == [] && n.flows[i].toServer != [] && n.flows[i].toServer[0] == payload
  }

  /** `onMessage` with a DATA packet: it looks the stream up, tries to queue the packet and, if the queue was
      full, goes on with the close it began. */
  function DataSteps(i: nat): seq<Step> {
    [OnFlow(i, F.Look), OnFlow(i, F.Enqueue), OnServer(W.Release(i)), OnServer(W.Notice(i))]
  }

  lemma RunFour(n: Net, a: Step, b: Step, c: Step, d: Step)
    ensures RunFrom(n, [a, b, c, d]) == Apply(Apply(Apply(Apply(n, a), b), c), d)
  {
    var steps := [a, b, c, d];
    assert steps[1..] == [b, c, d] && [b, c, d][1..] == [c, d] && [c, d][1..] == [d] && [d][1..] == [];
    var n2 := Apply(Apply(n, a), b);
    assert RunFrom(n2, [c, d]) == Apply(Apply(n2, c), d) by {
      assert RunFrom(Apply(n2, c), [d]) == Apply(Apply(n2, c), d);
    }
  }

  /** Looking up only moves the packet into the handler's hand. */
  lemma LookMoves(n: Net, i: nat, payload: Bytes)
    requires Arrives(n, i, payload) && n.flows[i].listed
    ensures var m := Apply(n, OnFlow(i, F.Look));
      && m.server == n.server
      && m.flows == n.flows[i := n.flows[i].(toServer := n.flows[i].toServer[1..], inHand := [payload])]
  {
  }

  /** A packet is in the handler's hand, and the two views of its stream's queue agree. */
  predicate InHand(m: Net, i: nat, payload: Bytes) {
    i < |m.flows| && i < |m.server.all| && m.flows[i].inHand == [payload] && m.server.all[i].queue == m.flows[i].queue
  }

  /** With room in the queue, the packet is accepted and nothing else happens. */
  lemma RoomServer(m: Net, i: nat, payload: Bytes)
    requires InHand(m, i, payload) && |m.flows[i].queue| < 64
    ensures var e := Apply(m, OnFlow(i, F.Enqueue));
      && e.server == m.server.(all := m.server.all[i := m.server.all[i].(queue := m.server.all[i].queue + [payload])])
      && |e.flows| == |m.flows| && e.flows[i].accepted == m.flows[i].accepted + [payload]
  {
  }

  /** The end of a close is not seen by the data paths. */
  lemma FinishUnseen(m: Net, w: W.Step)
    requires w.Release? || w.Notice?
    ensures Apply(m, OnServer(w)).flows == m.flows && Apply(m, OnServer(w)).server == W.Apply(m.server, w)
  {
    if w.i < |m.flows| {
      assert m.flows[w.i := m.flows[w.i]] == m.flows;
    }
  }

  /** A close that has not begun is not finished, either. */
  lemma NothingToFinish(m: Net, i: nat)
    requires i < |m.server.all| && W.Listed(m.server.all[i].phase)
    ensures Apply(Apply(m, OnServer(W.Release(i))), OnServer(W.Notice(i))) == m
  {
    assert m.server.all[i := m.server.all[i]] == m.server.all;
    FinishUnseen(m, W.Release(i));
    FinishUnseen(Apply(m, OnServer(W.Release(i))), W.Notice(i));
  }

  /** With the queue full, the close is run through. */
  lemma FullServer(m: Net, i: nat, payload: Bytes)
    requires InHand(m, i, payload) && |m.flows[i].queue| >= 64
    ensures Apply(Apply(Apply(m, OnFlow(i, F.Enqueue)), OnServer(W.Release(i))), OnServer(W.Notice(i))).server
         == CloseNow(m.server, i, true, W.CLOSE_THROTTLED)
  {
    CloseIsFour(m.server, i, true, W.CLOSE_THROTTLED);
    var a := Apply(m, OnFlow(i, F.Enqueue));
    assert a.server == W.Apply(W.Apply(m.server, W.Cancel(i, true, W.CLOSE_THROTTLED)), W.Delete(i));
    FinishUnseen(a, W.Release(i));
    FinishUnseen(Apply(a, OnServer(W.Release(i))), W.Notice(i));
  }

  /** A packet that arrives for a listed stream is what the lookup finds. */
  lemma Found(n: Net, i: nat, id: StreamId, payload: Bytes)
    requires Inv(n) && id in n.server.streams && n.server.streams[id] == i && Arrives(n, i, payload)
    ensures var m := Apply(n, OnFlow(i, F.Look));
      && InHand(m, i, payload) && m.server == n.server
      && m.flows[i].queue == n.flows[i].queue && m.flows[i].accepted == n.flows[i].accepted && W.Listed(n.server.all[i].phase)
  {
    assert Agree(n.server.all[i], n.flows[i]);
    LookMoves(n, i, payload);
  }

  lemma RoomData(n: Net, m: Net, i: nat, id: StreamId, payload: Bytes)
    requires id in n.server.streams && n.server.streams[id] == i && m == Apply(n, OnFlow(i, F.Look))
    requires InHand(m, i, payload) && m.server == n.server && |m.flows[i].queue| < 64 && W.Listed(m.server.all[i].phase)
    ensures var e := RunFrom(n, DataSteps(i));
      e.server == Handled(n.server, Frame(DATA, id, payload)) && |e.flows| == |m.flows| && e.flows[i].accepted == m.flows[i].accepted + [payload]
  {
    RoomServer(m, i, payload);
    NothingToFinish(Apply(m, OnFlow(i, F.Enqueue)), i);
    RunFour(n, OnFlow(i, F.Look), OnFlow(i, F.Enqueue), OnServer(W.Release(i)), OnServer(W.Notice(i)));
  }

  lemma FullData(n: Net, m: Net, i: nat, id: StreamId, payload: Bytes)
    requires id in n.server.streams && n.server.streams[id] == i && m == Apply(n, OnFlow(i, F.Look))
    requires InHand(m, i, payload) && m.server == n.server && |m.flows[i].queue| >= 64
    ensures RunFrom(n, DataSteps(i)).server == Handled(n.server, Frame(DATA, id, payload))
  {
    FullServer(m, i, payload);
    RunFour(n, OnFlow(i, F.Look), OnFlow(i, F.Enqueue), OnServer(W.Release(i)), OnServer(W.Notice(i)));
  }

  /** A DATA packet that arrives for a listed stream: what the handler does to the server is what these steps
      of the data path do to it, and a packet that finds room is the next one accepted. */
  lemma DataIsEnqueued(n: Net, i: nat, id: StreamId, payload: Bytes)
    requires Inv(n) && id in n.server.streams && n.server.streams[id] == i && Arrives(n, i, payload)
    ensures var m := RunFrom(n, DataSteps(i));
      && m.server == Handled(n.server, Frame(2, id, payload))
      && (|n.server.all[i].queue| < 64 ==> i < |m.flows| && m.flows[i].accepted == n.flows[i].accepted + [payload])
  {
    Found(n, i, id, payload);
    var m := Apply(n, OnFlow(i, F.Look));
    if |n.server.all[i].queue| < 64 {
      RoomData(n, m, i, id, payload);
    } else {
      FullData(n, m, i, id, payload);
    }
  }

  /** A CONNECT that is accepted opens a stream with a data path of its own. */
  lemma ConnectIsOpen(n: Net, id: StreamId, payload: Bytes)
    requires Inv(n) && n.server.handshaken && GoodConnect(payload) && id !in n.server.streams && |n.server.streams| < 16
    requires forall k :: 0 <= k < |n.flows| && k < |n.server.all| && n.server.all[k].id == id ==> n.flows[k].toServer == [] && n.flows[k].inHand == []
    ensures var m := Apply(n, Step.Open(id));
      m.server == Handled(n.server, Frame(1, id, payload)) && m.flows == n.flows + [F.START]
  {
    W.OpenShape(n.server, id);
  }

  /** In every reachable state a client with credit can send on a stream of the table, and spends one credit. */
  lemma SendIsPossible(steps: seq<Step>, i: nat, payload: Bytes)
    requires var n := Run(steps); i < |n.flows| && n.flows[i].listed && n.flows[i].credit > 0
    ensures var n := Run(steps); var m := Apply(n, OnFlow(i, F.Send(payload)));
      && m.server == n.server && |m.flows| == |n.flows| && m.flows[i].credit == n.flows[i].credit - 1
      && m.flows[i].toServer == n.flows[i].toServer + [payload] && m.flows[i].sent == n.flows[i].sent + [payload]
  {
    var n := Run(steps);
    assert Newest(n.server, i) by {
      RunFromInv(START, steps);
      RunAddressed(START, steps);
      assert Agree(n.server.all[i], n.flows[i]);
    }
  }
}
