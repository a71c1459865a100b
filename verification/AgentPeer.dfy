/** One peer of the Agent: its data channels go through the capability, the ready message and the Wisp
    handshake before anything is dialled.  Closing a channel is not assumed to stop its messages. */
module AgentPeer {
  import opened Options
  import opened Clock
  import opened Cidr
  import opened AgentPolicy
  import opened AgentDial
  import T = TemporaryPeer
  import W = WispServer

  datatype Label = ControlLabel | Interactive | Bulk | Guacamole | Unknown(text: string)

  /** What the parsers make of a text message.  `Token` is a well-formed capability token, given by its
      digest; binary messages and everything else are `Junk`. */
  datatype Message = Token(digest: Digest) | Ready | TargetRequest(request: T.Request) | DiagnosticRequest | Junk

  /** Which handler is installed. */
  datatype Stage = Unproved | Awaiting | Controlling | Serving

  datatype Channel = Channel(name: Label, stage: Stage, server: W.Server, calls: map<nat, Outcome>)

  /** `Admitted`: the channel showed a token with this digest and reserved its label.  `Answered`: the reply
      went out. */
  datatype Event =
    | Admitted(ch: nat, digest: Digest, name: Label)
    | Answered(ch: nat)
    | Readied(ch: nat)
    | Shaken(ch: nat)
    | Dialled(ch: nat, outcome: Outcome)

  datatype Peer = Peer(labels: set<Label>, channels: seq<Channel>, room: T.Room, trace: seq<Event>)

  const START := Peer({}, [], T.EMPTY, [])

  datatype Setting = Setting(room: T.Setting, digest: Digest)

  datatype Step =
    | Announce(name: Label, reliable: bool)
    | Receive(ch: nat, message: Message, sent: bool)
    | Serve(ch: nat, step: W.Step)
    | Call(ch: nat, i: nat, host: string, port: nat, answer: Option<seq<Addr>>)
    | Work(work: T.Step)

  /** `validLabel`. */
  predicate ValidLabel(st: Setting, l: Label) {
    match l
    case ControlLabel => true
    case Interactive => true
    case Bulk => true
    case Guacamole => !st.room.temporary && st.room.service in st.room.policy.byId
                      && st.room.policy.byId[st.room.service].config.kind == "guacamole"
    case Unknown(_) => false
  }

  /** `serviceDial`. */
  function PeerDial(st: Setting, target: Option<Target>, host: string, port: nat, answer: Option<seq<Addr>>): Outcome {
    if st.room.temporary then DialTemporary(st.room.env, target, host, port)
    else ServiceDial(st.room.env, st.room.policy, st.room.service, host, port, answer)
  }

  function SetChannel(s: Peer, ch: nat, c: Channel): Peer
    requires ch < |s.channels|
  {
    s.(channels := s.channels[ch := c])
  }

  /** The first handler: the capability, then `reserveLabel`, then the reply. */
  function Prove(st: Setting, s: Peer, ch: nat, message: Message, sent: bool): Peer
    requires ch < |s.channels|
  {
    var c := s.channels[ch];
    if message != Token(st.digest) then s
    else if c.name in s.labels || |s.labels| >= 4 then s
    else
      var reserved := s.(labels := s.labels + {c.name}, trace := s.trace + [Admitted(ch, message.digest, c.name)]);
      if !sent then reserved
      else SetChannel(reserved, ch, c.(stage := if c.name.ControlLabel? then Controlling else Awaiting))
           .(trace := reserved.trace + [Answered(ch)])
  }

  function Receives(st: Setting, s: Peer, ch: nat, message: Message, sent: bool): Peer
    requires ch < |s.channels|
  {
    match s.channels[ch].stage
    case Unproved => Prove(st, s, ch, message, sent)
    case Awaiting =>
      if message.Ready? then SetChannel(s, ch, s.channels[ch].(stage := Serving)).(trace := s.trace + [Readied(ch)]) else s
    case Controlling =>
      (match message
       case TargetRequest(request) => s.(room := T.Apply(st.room, s.room, T.Ask(request, sent)))
       case DiagnosticRequest => s.(room := T.Apply(st.room, s.room, T.AskDiagnostic))
       case _ => s)
    case Serving => s
  }

  /** The Wisp server of a channel; a dial returns only what the call of the dial function gave. */
  predicate Possible(c: Channel, step: W.Step) {
    step.DialReturns? ==> step.i in c.calls && (step.ok ==> c.calls[step.i].Dial?)
  }

  function Serves(s: Peer, ch: nat, step: W.Step): Peer
    requires ch < |s.channels|
  {
    var c := s.channels[ch];
    if !c.stage.Serving? || !Possible(c, step) then s
    else SetChannel(s, ch, c.(server := W.Apply(c.server, step)))
         .(trace := if step.Handshake? then s.trace + [Shaken(ch)] else s.trace)
  }

  /** `connect` calls the dial function once for its stream. */
  function Calls(st: Setting, s: Peer, ch: nat, i: nat, host: string, port: nat, answer: Option<seq<Addr>>): Peer
    requires ch < |s.channels|
  {
    var c := s.channels[ch];
    if i >= |c.server.all| || i in c.calls then s
    else
      var outcome := PeerDial(st, s.room.target, host, port, answer);
      SetChannel(s, ch, c.(calls := c.calls[i := outcome])).(trace := s.trace + [Dialled(ch, outcome)])
  }

  function Apply(st: Setting, s: Peer, step: Step): Peer {
    match step
    case Announce(l, reliable) =>
      if ValidLabel(st, l) && reliable then s.(channels := s.channels + [Channel(l, Unproved, W.START, map[])]) else s
    case Receive(ch, message, sent) => if ch < |s.channels| then Receives(st, s, ch, message, sent) else s
    case Serve(ch, w) => if ch < |s.channels| then Serves(s, ch, w) else s
    case Call(ch, i, host, port, answer) => if ch < |s.channels| then Calls(st, s, ch, i, host, port, answer) else s
    case Work(t) => if t.Ask? || t.AskDiagnostic? then s else s.(room := T.Apply(st.room, s.room, t))
  }

  function RunFrom(st: Setting, s: Peer, steps: seq<Step>): Peer
    decreases |steps|
  {
    if steps == [] then s else RunFrom(st, Apply(st, s, steps[0]), steps[1..])
  }

  function Run(st: Setting, steps: seq<Step>): Peer {
    RunFrom(st, START, steps)
  }

  // ----- the order of events -----

  /** The events of the path happened in this order before position n. */
  ghost predicate Before(trace: seq<Event>, n: nat, path: seq<Event>)
    decreases |path|
  {
    path == [] || exists k :: 0 <= k < n && k < |trace| && trace[k] == path[|path| - 1] && Before(trace, k, path[..|path| - 1])
  }

  /** What is over stays over, however the trace goes on. */
  lemma {:induction false} BeforeStays(trace: seq<Event>, more: seq<Event>, n: nat, m: nat, path: seq<Event>)
    requires n <= m && Before(trace, n, path)
    ensures Before(trace + more, m, path)
    decreases |path|
  {
    if path != [] {
      var k :| 0 <= k < n && k < |trace| && trace[k] == path[|path| - 1] && Before(trace, k, path[..|path| - 1]);
      BeforeStays(trace, more, k, k, path[..|path| - 1]);
      assert (trace + more)[k] == path[|path| - 1];
    }
  }

  /** The next event extends the path. */
  lemma BeforeNext(trace: seq<Event>, e: Event, path: seq<Event>)
    requires Before(trace, |trace|, path)
    ensures Before(trace + [e], |trace| + 1, path + [e])
  {
    BeforeStays(trace, [e], |trace|, |trace|, path);
    var whole := path + [e];
    assert whole[..|whole| - 1] == path && (trace + [e])[|trace|] == e;
  }

  /** What a channel goes through before it may dial. */
  function Path(st: Setting, ch: nat, name: Label): (r: seq<Event>)
    ensures |r| == 4
  {
    [Admitted(ch, st.digest, name), Answered(ch), Readied(ch), Shaken(ch)]
  }

  /** How much of the path a channel has behind it. */
  function Progress(c: Channel): nat {
    if c.server.handshaken then 4
    else match c.stage
      case Unproved => 0
      case Awaiting => 2
      case Controlling => 2
      case Serving => 3
  }

  ghost predicate Earned(st: Setting, trace: seq<Event>, ch: nat, c: Channel) {
    && Before(trace, |trace|, Path(st, ch, c.name)[..Progress(c)])
    && (!c.stage.Serving? ==> c.server == W.START)
    && W.Inv(c.server)
  }

  /** Every dial comes after the whole path of its own channel. */
  ghost predicate DialsEarned(st: Setting, trace: seq<Event>, channels: seq<Channel>) {
    forall k :: 0 <= k < |trace| && trace[k].Dialled? ==>
      trace[k].ch < |channels| && Before(trace, k, Path(st, trace[k].ch, channels[trace[k].ch].name))
  }

  ghost predicate History(st: Setting, s: Peer) {
    DialsEarned(st, s.trace, s.channels) && forall ch :: 0 <= ch < |s.channels| ==> Earned(st, s.trace, ch, s.channels[ch])
  }

  ghost predicate SameNames(a: seq<Channel>, b: seq<Channel>) {
    |a| <= |b| && forall i :: 0 <= i < |a| ==> b[i].name == a[i].name
  }

  lemma DialsStay(st: Setting, trace: seq<Event>, more: seq<Event>, a: seq<Channel>, b: seq<Channel>)
    requires DialsEarned(st, trace, a) && SameNames(a, b)
    requires forall i :: 0 <= i < |more| && more[i].Dialled? ==>
      more[i].ch < |a| && Before(trace, |trace|, Path(st, more[i].ch, a[more[i].ch].name))
    ensures DialsEarned(st, trace + more, b)
  {
    var whole := trace + more;
    forall k | 0 <= k < |whole| && whole[k].Dialled?
      ensures whole[k].ch < |b| && Before(whole, k, Path(st, whole[k].ch, b[whole[k].ch].name))
    {
      var path := Path(st, whole[k].ch, b[whole[k].ch].name);
      if k < |trace| {
        BeforeStays(trace, more, k, k, path);
      } else {
        assert whole[k] == more[k - |trace|];
        BeforeStays(trace, more, |trace|, k, path);
      }
    }
  }

  /** One channel changes and events are added to the trace. */
  lemma HistoryStep(st: Setting, s: Peer, ch: nat, c: Channel, more: seq<Event>, labels: set<Label>)
    requires History(st, s) && ch < |s.channels| && c.name == s.channels[ch].name
    requires forall i :: 0 <= i < |more| && more[i].Dialled? ==>
      more[i].ch < |s.channels| && Before(s.trace, |s.trace|, Path(st, more[i].ch, s.channels[more[i].ch].name))
    requires Earned(st, s.trace + more, ch, c)
    ensures History(st, s.(channels := s.channels[ch := c], trace := s.trace + more, labels := labels))
  {
    DialsStay(st, s.trace, more, s.channels, s.channels[ch := c]);
    forall k | 0 <= k < |s.channels| && k != ch
      ensures Earned(st, s.trace + more, k, s.channels[k])
    {
      BeforeStays(s.trace, more, |s.trace|, |s.trace + more|, Path(st, k, s.channels[k].name)[..Progress(s.channels[k])]);
    }
  }

  lemma PathPrefix(st: Setting, ch: nat, name: Label)
    ensures var p := Path(st, ch, name);
      && p[..0] == [] && p[..2] == ([] + [Admitted(ch, st.digest, name)]) + [Answered(ch)]
      && p[..3] == p[..2] + [Readied(ch)] && p[..4] == p[..3] + [Shaken(ch)] == p
  {
  }

  /** What the first handler does when it does anything. */
  lemma ProveShape(st: Setting, s: Peer, ch: nat, message: Message, sent: bool)
    requires ch < |s.channels| && Prove(st, s, ch, message, sent) != s
    ensures var t := Prove(st, s, ch, message, sent); var c := s.channels[ch]; var admitted := Admitted(ch, st.digest, c.name);
      t == s.(labels := t.labels, channels := s.channels[ch := t.channels[ch]],
              trace := s.trace + if sent then [admitted, Answered(ch)] else [admitted])
      && |t.channels| == |s.channels|
      && t.channels[ch] == if sent then c.(stage := if c.name.ControlLabel? then Controlling else Awaiting) else c
  {
    var t, c := Prove(st, s, ch, message, sent), s.channels[ch];
    var admitted := Admitted(ch, st.digest, c.name);
    assert s.trace + [admitted] + [Answered(ch)] == s.trace + [admitted, Answered(ch)];
    assert s.channels[ch := c] == s.channels;
  }

  lemma AdmittedEarned(st: Setting, trace: seq<Event>, ch: nat, name: Label)
    ensures var more := [Admitted(ch, st.digest, name), Answered(ch)];
      Before(trace + more, |trace + more|, Path(st, ch, name)[..2])
  {
    var admitted := Admitted(ch, st.digest, name);
    BeforeNext(trace, admitted, []);
    BeforeNext(trace + [admitted], Answered(ch), [] + [admitted]);
    PathPrefix(st, ch, name);
    assert trace + [admitted] + [Answered(ch)] == trace + [admitted, Answered(ch)];
  }

  lemma ProveHistory(st: Setting, s: Peer, ch: nat, message: Message, sent: bool)
    requires History(st, s) && ch < |s.channels| && s.channels[ch].stage.Unproved?
    ensures History(st, Prove(st, s, ch, message, sent))
  {
    var t, c := Prove(st, s, ch, message, sent), s.channels[ch];
    assert Earned(st, s.trace, ch, c);
    if t != s {
      ProveShape(st, s, ch, message, sent);
      var admitted := Admitted(ch, st.digest, c.name);
      if sent {
        AdmittedEarned(st, s.trace, ch, c.name);
        HistoryStep(st, s, ch, t.channels[ch], [admitted, Answered(ch)], t.labels);
      } else {
        PathPrefix(st, ch, c.name);
        HistoryStep(st, s, ch, c, [admitted], t.labels);
      }
    }
  }

  lemma ReadyHistory(st: Setting, s: Peer, ch: nat, message: Message, sent: bool)
    requires History(st, s) && ch < |s.channels| && s.channels[ch].stage.Awaiting?
    ensures History(st, Receives(st, s, ch, message, sent))
  {
    var c := s.channels[ch];
    assert Earned(st, s.trace, ch, c);
    if message.Ready? {
      PathPrefix(st, ch, c.name);
      BeforeNext(s.trace, Readied(ch), Path(st, ch, c.name)[..2]);
      HistoryStep(st, s, ch, c.(stage := Serving), [Readied(ch)], s.labels);
    }
  }

  lemma ServeHistory(st: Setting, s: Peer, ch: nat, step: W.Step)
    requires History(st, s) && ch < |s.channels|
    ensures History(st, Serves(s, ch, step))
  {
    var c := s.channels[ch];
    assert Earned(st, s.trace, ch, c);
    if c.stage.Serving? && Possible(c, step) {
      var next := c.(server := W.Apply(c.server, step));
      W.StepInv(c.server, step);
      if step.Handshake? {
        ShakenEarned(st, s.trace, ch, c);
        HistoryStep(st, s, ch, next, [Shaken(ch)], s.labels);
      } else {
        HandshakeStays(c.server, step);
        assert s.trace + [] == s.trace;
        HistoryStep(st, s, ch, next, [], s.labels);
      }
    }
  }

  lemma HandshakeStays(server: W.Server, step: W.Step)
    requires !step.Handshake?
    ensures W.Apply(server, step).handshaken == server.handshaken
  {
  }

  lemma ShakenEarned(st: Setting, trace: seq<Event>, ch: nat, c: Channel)
    requires Earned(st, trace, ch, c) && c.stage.Serving?
    ensures Before(trace + [Shaken(ch)], |trace| + 1, Path(st, ch, c.name)[..4])
  {
    PathPrefix(st, ch, c.name);
    var p := Path(st, ch, c.name);
    if c.server.handshaken {
      BeforeStays(trace, [Shaken(ch)], |trace|, |trace| + 1, p[..4]);
    } else {
      BeforeNext(trace, Shaken(ch), p[..3]);
    }
  }

  lemma CallHistory(st: Setting, s: Peer, ch: nat, i: nat, host: string, port: nat, answer: Option<seq<Addr>>)
    requires History(st, s) && ch < |s.channels|
    ensures History(st, Calls(st, s, ch, i, host, port, answer))
  {
    var c := s.channels[ch];
    assert Earned(st, s.trace, ch, c);
    if i < |c.server.all| && i !in c.calls {
      var outcome := PeerDial(st, s.room.target, host, port, answer);
      var e := Dialled(ch, outcome);
      PathPrefix(st, ch, c.name);
      BeforeStays(s.trace, [e], |s.trace|, |s.trace| + 1, Path(st, ch, c.name));
      HistoryStep(st, s, ch, c.(calls := c.calls[i := outcome]), [e], s.labels);
    }
  }

  lemma AnnounceHistory(st: Setting, s: Peer, l: Label)
    requires History(st, s)
    ensures History(st, s.(channels := s.channels + [Channel(l, Unproved, W.START, map[])]))
  {
    var channels := s.channels + [Channel(l, Unproved, W.START, map[])];
    assert s.trace + [] == s.trace;
    DialsStay(st, s.trace, [], s.channels, channels);
    PathPrefix(st, |s.channels|, l);
  }

  lemma ReceiveHistory(st: Setting, s: Peer, ch: nat, message: Message, sent: bool)
    requires History(st, s) && ch < |s.channels|
    ensures History(st, Receives(st, s, ch, message, sent))
  {
    match s.channels[ch].stage
    case Unproved => ProveHistory(st, s, ch, message, sent);
    case Awaiting => ReadyHistory(st, s, ch, message, sent);
    case Controlling =>
    case Serving =>
  }

  lemma HistoryKept(st: Setting, s: Peer, step: Step)
    requires History(st, s)
    ensures History(st, Apply(st, s, step))
  {
    match step
    case Announce(l, reliable) => AnnounceHistory(st, s, l);
    case Receive(ch, message, sent) => if ch < |s.channels| { ReceiveHistory(st, s, ch, message, sent); }
    case Serve(ch, w) => if ch < |s.channels| { ServeHistory(st, s, ch, w); }
    case Call(ch, i, host, port, answer) => if ch < |s.channels| { CallHistory(st, s, ch, i, host, port, answer); }
    case Work(t) =>
  }

  lemma {:induction false} RunHistory(st: Setting, s: Peer, steps: seq<Step>)
    requires History(st, s)
    ensures History(st, RunFrom(st, s, steps))
    decreases |steps|
  {
    if steps != [] {
      HistoryKept(st, s, steps[0]);
      RunHistory(st, Apply(st, s, steps[0]), steps[1..]);
    }
  }

  // ----- one server for each label -----

  ghost predicate LabelsOk(st: Setting, s: Peer) {
    && (forall i :: 0 <= i < |s.channels| ==> ValidLabel(st, s.channels[i].name))
    && (forall i :: 0 <= i < |s.channels| && !s.channels[i].stage.Unproved? ==> s.channels[i].name in s.labels)
    && (forall i, j :: 0 <= i < j < |s.channels| && !s.channels[i].stage.Unproved? && !s.channels[j].stage.Unproved?
          ==> s.channels[i].name != s.channels[j].name)
    && (forall i :: 0 <= i < |s.channels| && s.channels[i].stage.Serving? ==> !s.channels[i].name.ControlLabel?)
    && (forall i :: 0 <= i < |s.channels| && s.channels[i].stage.Awaiting? ==> !s.channels[i].name.ControlLabel?)
  }

  lemma ReceiveLabels(st: Setting, s: Peer, ch: nat, message: Message, sent: bool)
    requires LabelsOk(st, s) && ch < |s.channels|
    ensures LabelsOk(st, Receives(st, s, ch, message, sent))
  {
  }

  lemma SameLabels(st: Setting, s: Peer, ch: nat, c: Channel)
    requires LabelsOk(st, s) && ch < |s.channels| && c.name == s.channels[ch].name && c.stage == s.channels[ch].stage
    ensures LabelsOk(st, s.(channels := s.channels[ch := c]))
  {
  }

  lemma LabelsKept(st: Setting, s: Peer, step: Step)
    requires LabelsOk(st, s)
    ensures LabelsOk(st, Apply(st, s, step))
  {
    var t := Apply(st, s, step);
    match step
    case Announce(l, reliable) =>
    case Receive(ch, message, sent) => if ch < |s.channels| { ReceiveLabels(st, s, ch, message, sent); }
    case Serve(ch, w) => if ch < |s.channels| { SameLabels(st, s, ch, t.channels[ch]); }
    case Call(ch, i, host, port, answer) => if ch < |s.channels| { SameLabels(st, s, ch, t.channels[ch]); }
    case Work(w) =>
  }

  lemma {:induction false} RunLabels(st: Setting, s: Peer, steps: seq<Step>)
    requires LabelsOk(st, s)
    ensures LabelsOk(st, RunFrom(st, s, steps))
    decreases |steps|
  {
    if steps != [] {
      LabelsKept(st, s, steps[0]);
      RunLabels(st, Apply(st, s, steps[0]), steps[1..]);
    }
  }

  /** A label is reserved once: by the one channel that was admitted under it. */
  ghost predicate ReservedOnce(s: Peer) {
    && (forall k :: 0 <= k < |s.trace| && s.trace[k].Admitted? ==> s.trace[k].name in s.labels)
    && AdmittedApart(s.trace)
  }

  ghost predicate AdmittedApart(trace: seq<Event>) {
    forall k, m :: 0 <= k < m < |trace| && trace[k].Admitted? && trace[m].Admitted? ==> trace[k].name != trace[m].name
  }

  lemma AddsKeeps(s: Peer, t: Peer)
    requires ReservedOnce(s) && Adds(s, t)
    ensures ReservedOnce(t)
  {
    var n := |s.trace|;
    assert forall k :: 0 <= k < n ==> t.trace[k] == s.trace[k];
    forall k, m | 0 <= k < m < |t.trace| && t.trace[k].Admitted? && t.trace[m].Admitted?
      ensures t.trace[k].name != t.trace[m].name
    {
      assert k < n;
      if m >= n {
        assert s.trace[k].name in s.labels;
      }
    }
  }

  lemma ReservedKept(st: Setting, s: Peer, step: Step)
    requires ReservedOnce(s)
    ensures ReservedOnce(Apply(st, s, step))
  {
    TraceGrows(st, s, step);
    AddsKeeps(s, Apply(st, s, step));
  }

  /** A step adds at most an admission with its answer, or one other event. */
  ghost predicate Adds(s: Peer, t: Peer) {
    && s.trace <= t.trace && s.labels <= t.labels
    && forall k :: |s.trace| <= k < |t.trace| && t.trace[k].Admitted? ==> k == |s.trace| && t.trace[k].name in t.labels - s.labels
  }

  lemma ReceiveAdds(st: Setting, s: Peer, ch: nat, message: Message, sent: bool)
    requires ch < |s.channels|
    ensures Adds(s, Receives(st, s, ch, message, sent))
  {
  }

  lemma OtherAdds(st: Setting, s: Peer, step: Step)
    requires !step.Receive?
    ensures Adds(s, Apply(st, s, step))
  {
  }

  lemma TraceGrows(st: Setting, s: Peer, step: Step)
    ensures Adds(s, Apply(st, s, step))
  {
    if step.Receive? {
      if step.ch < |s.channels| { ReceiveAdds(st, s, step.ch, step.message, step.sent); }
    } else {
      OtherAdds(st, s, step);
    }
  }

  lemma {:induction false} RunReserved(st: Setting, s: Peer, steps: seq<Step>)
    requires ReservedOnce(s)
    ensures ReservedOnce(RunFrom(st, s, steps))
    decreases |steps|
  {
    if steps != [] {
      ReservedKept(st, s, steps[0]);
      RunReserved(st, Apply(st, s, steps[0]), steps[1..]);
    }
  }

  /** The labels that have a Wisp server among the first n channels. */
  function Served(channels: seq<Channel>, n: nat): set<Label>
    requires n <= |channels|
  {
    if n == 0 then {}
    else if channels[n - 1].stage.Serving? then Served(channels, n - 1) + {channels[n - 1].name}
    else Served(channels, n - 1)
  }

  /** Streams in the tables of the first n channels. */
  function Streams(channels: seq<Channel>, n: nat): nat
    requires n <= |channels|
  {
    if n == 0 then 0 else Streams(channels, n - 1) + |channels[n - 1].server.streams|
  }

  ghost predicate Capped(channels: seq<Channel>) {
    && (forall i :: 0 <= i < |channels| ==> |channels[i].server.streams| <= if channels[i].stage.Serving? then 16 else 0)
    && (forall i, j :: 0 <= i < j < |channels| && channels[i].stage.Serving? && channels[j].stage.Serving?
          ==> channels[i].name != channels[j].name)
  }

  lemma IsCapped(st: Setting, s: Peer)
    requires LabelsOk(st, s) && History(st, s)
    ensures Capped(s.channels)
  {
    forall i | 0 <= i < |s.channels|
      ensures |s.channels[i].server.streams| <= if s.channels[i].stage.Serving? then 16 else 0
    {
      assert Earned(st, s.trace, i, s.channels[i]);
    }
  }

  lemma {:induction false} ServedHasIndex(channels: seq<Channel>, n: nat, name: Label)
    requires n <= |channels| && name in Served(channels, n)
    ensures exists i :: 0 <= i < n && channels[i].stage.Serving? && channels[i].name == name
  {
    if name in Served(channels, n - 1) {
      ServedHasIndex(channels, n - 1, name);
    }
  }

  /** How many of the first n channels have a Wisp server. */
  function Servers(channels: seq<Channel>, n: nat): nat
    requires n <= |channels|
  {
    if n == 0 then 0 else Servers(channels, n - 1) + if channels[n - 1].stage.Serving? then 1 else 0
  }

  lemma NewLabel(channels: seq<Channel>, n: nat)
    requires Capped(channels) && n < |channels| && channels[n].stage.Serving?
    ensures channels[n].name !in Served(channels, n)
  {
    if channels[n].name in Served(channels, n) {
      ServedHasIndex(channels, n, channels[n].name);
    }
  }

  lemma AddOne(labels: set<Label>, l: Label)
    requires l !in labels
    ensures |labels + {l}| == |labels| + 1
  {
  }

  lemma {:induction false} OneLabelEach(channels: seq<Channel>, n: nat)
    requires Capped(channels) && n <= |channels|
    ensures |Served(channels, n)| == Servers(channels, n)
  {
    if n > 0 {
      OneLabelEach(channels, n - 1);
      if channels[n - 1].stage.Serving? {
        NewLabel(channels, n - 1);
        AddOne(Served(channels, n - 1), channels[n - 1].name);
      }
    }
  }

  lemma {:induction false} StreamsBound(channels: seq<Channel>, n: nat)
    requires Capped(channels) && n <= |channels|
    ensures Streams(channels, n) <= 16 * Servers(channels, n)
  {
    if n > 0 {
      StreamsBound(channels, n - 1);
    }
  }

  lemma {:induction false} ServedData(channels: seq<Channel>, n: nat, allowed: set<Label>)
    requires n <= |channels| && forall i :: 0 <= i < n && channels[i].stage.Serving? ==> channels[i].name in allowed
    ensures Served(channels, n) <= allowed
  {
    if n > 0 {
      ServedData(channels, n - 1, allowed);
    }
  }

  lemma ServedBound(st: Setting, s: Peer)
    requires LabelsOk(st, s)
    ensures var servers := Served(s.channels, |s.channels|);
      |servers| <= 3 && (!ValidLabel(st, Guacamole) ==> |servers| <= 2)
  {
    var servers := Served(s.channels, |s.channels|);
    ServedData(s.channels, |s.channels|, {Interactive, Bulk, Guacamole});
    W.SubsetSize(servers, {Interactive, Bulk, Guacamole});
    if !ValidLabel(st, Guacamole) {
      ServedData(s.channels, |s.channels|, {Interactive, Bulk});
      W.SubsetSize(servers, {Interactive, Bulk});
    }
  }

  // ----- the theorems about channels -----

  /** The channel showed a token with the peer's digest and reserved its label, got its reply out, sent the
      ready message and completed the Wisp handshake, in this order, before position k. */
  ghost predicate Staged(st: Setting, trace: seq<Event>, k: nat, ch: nat, name: Label)
    requires k <= |trace|
  {
    exists a, b, c, d :: 0 <= a < b < c < d < k && trace[a] == Admitted(ch, st.digest, name)
      && trace[b] == Answered(ch) && trace[c] == Readied(ch) && trace[d] == Shaken(ch)
  }

  /** No other channel was ever admitted under the label. */
  ghost predicate Sole(trace: seq<Event>, ch: nat, name: Label) {
    forall m :: 0 <= m < |trace| && trace[m].Admitted? && trace[m].name == name ==> trace[m].ch == ch
  }

  lemma SoleAt(trace: seq<Event>, a: nat)
    requires AdmittedApart(trace) && a < |trace| && trace[a].Admitted?
    ensures Sole(trace, trace[a].ch, trace[a].name)
  {
    forall m | 0 <= m < |trace| && trace[m].Admitted? && trace[m].name == trace[a].name
      ensures m == a
    {
    }
  }

  lemma PathIsStaged(st: Setting, trace: seq<Event>, k: nat, ch: nat, name: Label)
    requires AdmittedApart(trace) && k <= |trace| && Before(trace, k, Path(st, ch, name))
    ensures Staged(st, trace, k, ch, name) && Sole(trace, ch, name)
  {
    var a, b, c, d := InOrder(st, trace, k, ch, name);
    SoleAt(trace, a);
  }

  /** Staged channel safety: in every run, over any messages on any channels, a dial happens only after
      its own channel went through all the stages, and as the only channel ever admitted under its label. */
  lemma DialsAreEarned(st: Setting, steps: seq<Step>)
    ensures var s := Run(st, steps);
      forall k :: 0 <= k < |s.trace| && s.trace[k].Dialled? ==>
        && s.trace[k].ch < |s.channels|
        && Staged(st, s.trace, k, s.trace[k].ch, s.channels[s.trace[k].ch].name)
        && Sole(s.trace, s.trace[k].ch, s.channels[s.trace[k].ch].name)
  {
    RunHistory(st, START, steps);
    RunReserved(st, START, steps);
    var s := Run(st, steps);
    forall k | 0 <= k < |s.trace| && s.trace[k].Dialled?
      ensures s.trace[k].ch < |s.channels|
      ensures Staged(st, s.trace, k, s.trace[k].ch, s.channels[s.trace[k].ch].name)
      ensures Sole(s.trace, s.trace[k].ch, s.channels[s.trace[k].ch].name)
    {
      PathIsStaged(st, s.trace, k, s.trace[k].ch, s.channels[s.trace[k].ch].name);
    }
  }

  lemma LastOf(trace: seq<Event>, n: nat, path: seq<Event>) returns (k: nat)
    requires path != [] && Before(trace, n, path)
    ensures k < n && k < |trace| && trace[k] == path[|path| - 1] && Before(trace, k, path[..|path| - 1])
  {
    k :| 0 <= k < n && k < |trace| && trace[k] == path[|path| - 1] && Before(trace, k, path[..|path| - 1]);
  }

  lemma InOrder(st: Setting, trace: seq<Event>, k: nat, ch: nat, name: Label) returns (a: nat, b: nat, c: nat, d: nat)
    requires k <= |trace| && Before(trace, k, Path(st, ch, name))
    ensures a < b < c < d < k && trace[a] == Admitted(ch, st.digest, name)
    ensures trace[b] == Answered(ch) && trace[c] == Readied(ch) && trace[d] == Shaken(ch)
  {
    var p := Path(st, ch, name);
    d := LastOf(trace, k, p);
    c := LastOf(trace, d, p[..3]);
    assert p[..3][..2] == p[..2];
    b := LastOf(trace, c, p[..2]);
    assert p[..2][..1] == p[..1];
    a := LastOf(trace, b, p[..1]);
  }

  /** At most one Wisp server for each label, so at most three (two without Guacamole) and at most 48
      streams for each peer, although any number of channels may be opened. */
  lemma OneServerPerLabel(st: Setting, steps: seq<Step>)
    ensures var s := Run(st, steps);
      && (forall i, j :: 0 <= i < j < |s.channels| && s.channels[i].stage.Serving? && s.channels[j].stage.Serving?
            ==> s.channels[i].name != s.channels[j].name)
      && Streams(s.channels, |s.channels|) <= 48
      && (st.room.temporary ==> Streams(s.channels, |s.channels|) <= 32)
  {
    RunHistory(st, START, steps);
    RunLabels(st, START, steps);
    var s := Run(st, steps);
    IsCapped(st, s);
    StreamsBound(s.channels, |s.channels|);
    OneLabelEach(s.channels, |s.channels|);
    ServedBound(st, s);
  }

  // ----- where the dials go -----

  ghost predicate FromService(st: Setting, r: Outcome) {
    exists host: string, port: nat, answer: Option<seq<Addr>> ::
      r == ServiceDial(st.room.env, st.room.policy, st.room.service, host, port, answer)
  }

  ghost predicate FromTarget(st: Setting, target: Option<Target>, r: Outcome) {
    exists host: string, port: nat :: r == DialTemporary(st.room.env, target, host, port)
  }

  /** A connection that was dialled, explained by the target as it is now. */
  ghost predicate Explained(st: Setting, target: Option<Target>, r: Outcome) {
    r.Dial? ==> if st.room.temporary then FromTarget(st, target, r) else FromService(st, r)
  }

  /** A connection in a stream's hands is one of the channel's dials, and those are in the trace. */
  ghost predicate Accounted(trace: seq<Event>, ch: nat, c: Channel) {
    && (forall i :: i in c.calls ==> Dialled(ch, c.calls[i]) in trace)
    && (forall i :: 0 <= i < |c.server.all| && Succeeded(c.server.all[i].dial) ==> i in c.calls && c.calls[i].Dial?)
  }

  predicate Succeeded(d: W.Dial) {
    !d.Dialing? && d.ok
  }

  ghost predicate Destinations(st: Setting, s: Peer) {
    && T.Inv(st.room, s.room)
    && (forall k :: 0 <= k < |s.trace| && s.trace[k].Dialled? ==> Explained(st, s.room.target, s.trace[k].outcome))
    && (forall ch :: 0 <= ch < |s.channels| ==> Accounted(s.trace, ch, s.channels[ch]))
  }

  lemma RoomStep(st: Setting, s: Peer, w: T.Step)
    requires Destinations(st, s)
    ensures Destinations(st, s.(room := T.Apply(st.room, s.room, w)))
  {
    T.StepInv(st.room, s.room, w);
  }

  /** One channel changes and events are added, none of them a dial. */
  lemma QuietStep(st: Setting, s: Peer, ch: nat, c: Channel, labels: set<Label>, es: seq<Event>)
    requires Destinations(st, s) && ch < |s.channels| && Accounted(s.trace, ch, c)
    requires forall e :: e in es ==> !e.Dialled?
    ensures Destinations(st, s.(channels := s.channels[ch := c], labels := labels, trace := s.trace + es))
  {
  }

  lemma ServerStep(trace: seq<Event>, ch: nat, c: Channel, step: W.Step)
    requires Accounted(trace, ch, c) && Possible(c, step)
    ensures Accounted(trace, ch, c.(server := W.Apply(c.server, step)))
  {
  }

  lemma CallStep(st: Setting, s: Peer, ch: nat, i: nat, host: string, port: nat, answer: Option<seq<Addr>>)
    requires Destinations(st, s) && ch < |s.channels|
    ensures Destinations(st, Calls(st, s, ch, i, host, port, answer))
  {
    var t := Calls(st, s, ch, i, host, port, answer);
    var c := s.channels[ch];
    assert Accounted(s.trace, ch, c);
    if t != s {
      var e := t.trace[|s.trace|];
      assert t.trace == s.trace + [e];
      assert Explained(st, s.room.target, e.outcome);
      assert e in t.trace;
      assert Accounted(t.trace, ch, t.channels[ch]);
    }
  }

  lemma DestinationsKept(st: Setting, s: Peer, step: Step)
    requires Destinations(st, s)
    ensures Destinations(st, Apply(st, s, step))
  {
    match step
    case Announce(l, reliable) =>
    case Receive(ch, message, sent) =>
      if ch < |s.channels| {
        ReceiveStep(st, s, ch, message, sent);
      }
    case Serve(ch, w) =>
      if ch < |s.channels| && Possible(s.channels[ch], w) {
        ServerStep(s.trace, ch, s.channels[ch], w);
        var c := s.channels[ch].(server := W.Apply(s.channels[ch].server, w));
        QuietStep(st, s, ch, c, s.labels, if w.Handshake? then [Shaken(ch)] else []);
        assert s.trace + [] == s.trace;
      }
    case Call(ch, i, host, port, answer) => if ch < |s.channels| { CallStep(st, s, ch, i, host, port, answer); }
    case Work(w) => RoomStep(st, s, w);
  }

  lemma ReceiveStep(st: Setting, s: Peer, ch: nat, message: Message, sent: bool)
    requires Destinations(st, s) && ch < |s.channels|
    ensures Destinations(st, Receives(st, s, ch, message, sent))
  {
    var t := Receives(st, s, ch, message, sent);
    var c := s.channels[ch];
    assert Accounted(s.trace, ch, c);
    if c.stage.Controlling? {
      RoomStep(st, s, T.AskDiagnostic);
      if message.TargetRequest? {
        RoomStep(st, s, T.Ask(message.request, sent));
      }
    } else if t != s {
      var es := t.trace[|s.trace|..];
      assert t.trace == s.trace + es;
      QuietStep(st, s, ch, t.channels[ch], t.labels, es);
      assert t.channels == s.channels[ch := t.channels[ch]];
    }
  }

  lemma {:induction false} RunDestinations(st: Setting, s: Peer, steps: seq<Step>)
    requires Destinations(st, s)
    ensures Destinations(st, RunFrom(st, s, steps))
    decreases |steps|
  {
    if steps != [] {
      DestinationsKept(st, s, steps[0]);
      RunDestinations(st, Apply(st, s, steps[0]), steps[1..]);
    }
  }

  /** What the Agent's configuration promises about a connection of a peer. */
  ghost predicate Promised(c: Config, st: Setting, target: Option<Target>, r: Outcome) {
    if st.room.temporary then target.Some? && T.SafeDestination(st.room.env, c, st.room, target.value, r)
    else exists i, j, answer: Option<seq<Addr>> :: Contained(st.room.env, c.services, i, j, st.room.service, answer, r)
  }

  lemma ExplainedIsPromised(c: Config, st: Setting, target: Option<Target>, r: Outcome)
    requires FoldLaw(st.room.env) && GoodConfig(st.room.env, c) && st.room.policy == PolicyOf(st.room.env, c)
    requires r.Dial? && Explained(st, target, r) && (target.Some? ==> T.Made(st.room, target.value))
    ensures Promised(c, st, target, r)
  {
    var env := st.room.env;
    if st.room.temporary {
      var host: string, port: nat :| r == DialTemporary(env, target, host, port);
      T.MadeIsSafe(env, c, st.room, target.value, host, port);
    } else {
      var host: string, port: nat, answer: Option<seq<Addr>> :|
        r == ServiceDial(env, st.room.policy, st.room.service, host, port, answer);
      DialContainment(env, c, st.room.service, host, port, answer);
    }
  }

  /** A connection in a stream's hands came out of a call of the dial function. */
  lemma HeldWasDialled(st: Setting, s: Peer, ch: nat, i: nat)
    requires Destinations(st, s) && ch < |s.channels| && i < |s.channels[ch].server.all|
    requires Succeeded(s.channels[ch].server.all[i].dial)
    ensures var c := s.channels[ch]; i in c.calls && c.calls[i].Dial? && Dialled(ch, c.calls[i]) in s.trace
  {
    assert Accounted(s.trace, ch, s.channels[ch]);
  }

  lemma HeldSucceeded(st: Setting, s: Peer, ch: nat, i: nat)
    requires History(st, s) && ch < |s.channels| && i < |s.channels[ch].server.all| && s.channels[ch].server.all[i].conn
    ensures Succeeded(s.channels[ch].server.all[i].dial)
  {
    assert Earned(st, s.trace, ch, s.channels[ch]);
    assert W.Owned(s.channels[ch].server.all[i]);
  }

  /** Every dial ever made, on any channel, in every run, against any client and any resolver, went where
      the configuration allows it; and every connection in a stream's hands came out of one of them. */
  lemma PeerContainment(c: Config, st: Setting, steps: seq<Step>)
    requires FoldLaw(st.room.env) && GoodConfig(st.room.env, c) && st.room.policy == PolicyOf(st.room.env, c)
    ensures var s := Run(st, steps);
      && (forall k :: 0 <= k < |s.trace| && s.trace[k].Dialled? && s.trace[k].outcome.Dial? ==>
            Promised(c, st, s.room.target, s.trace[k].outcome))
      && (forall ch, i :: 0 <= ch < |s.channels| && 0 <= i < |s.channels[ch].server.all| && s.channels[ch].server.all[i].conn ==>
            i in s.channels[ch].calls && s.channels[ch].calls[i].Dial? && Dialled(ch, s.channels[ch].calls[i]) in s.trace)
  {
    T.EmptyInv(st.room);
    RunDestinations(st, START, steps);
    RunHistory(st, START, steps);
    DialsArePromised(c, st, Run(st, steps));
    HeldWereDialled(st, Run(st, steps));
  }

  lemma DialsArePromised(c: Config, st: Setting, s: Peer)
    requires FoldLaw(st.room.env) && GoodConfig(st.room.env, c) && st.room.policy == PolicyOf(st.room.env, c) && Destinations(st, s)
    ensures forall k :: 0 <= k < |s.trace| && s.trace[k].Dialled? && s.trace[k].outcome.Dial? ==>
      Promised(c, st, s.room.target, s.trace[k].outcome)
  {
    forall k | 0 <= k < |s.trace| && s.trace[k].Dialled? && s.trace[k].outcome.Dial?
      ensures Promised(c, st, s.room.target, s.trace[k].outcome)
    {
      DialIsPromised(c, st, s, k);
    }
  }

  lemma HeldWereDialled(st: Setting, s: Peer)
    requires Destinations(st, s) && History(st, s)
    ensures forall ch, i :: 0 <= ch < |s.channels| && 0 <= i < |s.channels[ch].server.all| && s.channels[ch].server.all[i].conn ==>
      i in s.channels[ch].calls && s.channels[ch].calls[i].Dial? && Dialled(ch, s.channels[ch].calls[i]) in s.trace
  {
    forall ch, i | 0 <= ch < |s.channels| && 0 <= i < |s.channels[ch].server.all| && s.channels[ch].server.all[i].conn
      ensures i in s.channels[ch].calls && s.channels[ch].calls[i].Dial? && Dialled(ch, s.channels[ch].calls[i]) in s.trace
    {
      HeldSucceeded(st, s, ch, i);
      HeldWasDialled(st, s, ch, i);
    }
  }

  lemma DialIsPromised(c: Config, st: Setting, s: Peer, k: nat)
    requires FoldLaw(st.room.env) && GoodConfig(st.room.env, c) && st.room.policy == PolicyOf(st.room.env, c)
    requires Destinations(st, s) && k < |s.trace| && s.trace[k].Dialled? && s.trace[k].outcome.Dial?
    ensures Promised(c, st, s.room.target, s.trace[k].outcome)
  {
    ExplainedIsPromised(c, st, s.room.target, s.trace[k].outcome);
  }

  lemma SameTarget(st: Setting, target: Option<Target>, r: Outcome, r': Outcome)
    requires st.room.temporary && r.Dial? && r'.Dial? && Explained(st, target, r) && Explained(st, target, r')
    ensures r == r'
  {
  }

  /** All dials of a temporary peer, on all its channels and for all its life, go to one place. */
  lemma TemporaryPeerDialsOnePlace(st: Setting, steps: seq<Step>, k: nat, m: nat)
    requires st.room.temporary
    requires var trace := Run(st, steps).trace;
      k < |trace| && m < |trace| && trace[k].Dialled? && trace[m].Dialled? && trace[k].outcome.Dial? && trace[m].outcome.Dial?
    ensures Run(st, steps).trace[k].outcome == Run(st, steps).trace[m].outcome
  {
    T.EmptyInv(st.room);
    RunDestinations(st, START, steps);
    var s := Run(st, steps);
    SameTarget(st, s.room.target, s.trace[k].outcome, s.trace[m].outcome);
  }
}
