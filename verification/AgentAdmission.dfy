/** Which channels of a peer are admitted, and that an admitted one gets to dial: the other half of the staged
    channel rules. */
module AgentAdmission {
  import opened Options
  import opened Clock
  import opened Cidr
  import opened AgentPolicy
  import opened AgentDial
  import opened AgentPeer
  import opened WispFrame
  import T = TemporaryPeer
  import W = WispServer

  /** No channel was ever admitted under the label. */
  ghost predicate Free(trace: seq<Event>, name: Label) {
    forall k :: 0 <= k < |trace| && trace[k].Admitted? ==> trace[k].name != name
  }

  /** The reserved labels are those of the admitted channels, all of them valid. */
  ghost predicate LabelsTraced(st: Setting, s: Peer) {
    && (forall l :: l in s.labels ==> ValidLabel(st, l) && !Free(s.trace, l))
    && (forall k :: 0 <= k < |s.trace| && s.trace[k].Admitted? ==> s.trace[k].name in s.labels)
    && (forall i :: 0 <= i < |s.channels| ==> ValidLabel(st, s.channels[i].name))
  }

  lemma TracedMeans(st: Setting, s: Peer, name: Label)
    requires LabelsTraced(st, s)
    ensures name in s.labels <==> !Free(s.trace, name)
  {
  }

  lemma FreeGrows(trace: seq<Event>, more: seq<Event>, name: Label)
    ensures Free(trace + more, name) <==> Free(trace, name) && Free(more, name)
  {
    var whole := trace + more;
    assert forall k :: 0 <= k < |trace| ==> whole[k] == trace[k];
    assert forall k :: 0 <= k < |more| ==> whole[|trace| + k] == more[k];
  }

  /** Events that are not admissions change nothing here. */
  lemma TracedQuiet(st: Setting, s: Peer, t: Peer, more: seq<Event>)
    requires LabelsTraced(st, s) && t.labels == s.labels && t.trace == s.trace + more
    requires forall k :: 0 <= k < |more| ==> !more[k].Admitted?
    requires forall i :: 0 <= i < |t.channels| ==> ValidLabel(st, t.channels[i].name)
    ensures LabelsTraced(st, t)
  {
    forall l | l in t.labels
      ensures !Free(t.trace, l)
    {
      FreeGrows(s.trace, more, l);
    }
  }

  lemma TracedProve(st: Setting, s: Peer, ch: nat, message: Message, sent: bool)
    requires LabelsTraced(st, s) && ch < |s.channels|
    ensures LabelsTraced(st, Prove(st, s, ch, message, sent))
  {
    var t, c := Prove(st, s, ch, message, sent), s.channels[ch];
    if t != s {
      ProveShape(st, s, ch, message, sent);
      var admitted := Admitted(ch, st.digest, c.name);
      var more := if sent then [admitted, Answered(ch)] else [admitted];
      assert t.trace == s.trace + more && more[0] == admitted;
      ProveLabels(st, s, ch, message, sent);
      forall l | l in t.labels
        ensures !Free(t.trace, l)
      {
        FreeGrows(s.trace, more, l);
      }
    }
  }

  lemma ProveLabels(st: Setting, s: Peer, ch: nat, message: Message, sent: bool)
    requires ch < |s.channels| && Prove(st, s, ch, message, sent) != s
    ensures Prove(st, s, ch, message, sent).labels == s.labels + {s.channels[ch].name}
  {
  }

  lemma TracedReceive(st: Setting, s: Peer, ch: nat, message: Message, sent: bool)
    requires LabelsTraced(st, s) && ch < |s.channels|
    ensures LabelsTraced(st, Receives(st, s, ch, message, sent))
  {
    if s.channels[ch].stage.Unproved? {
      TracedProve(st, s, ch, message, sent);
    } else {
      var t := Receives(st, s, ch, message, sent);
      TracedQuiet(st, s, t, if t.trace == s.trace then [] else [Readied(ch)]);
    }
  }

  lemma TracedServe(st: Setting, s: Peer, ch: nat, w: W.Step)
    requires LabelsTraced(st, s) && ch < |s.channels|
    ensures LabelsTraced(st, Serves(s, ch, w))
  {
    var t := Serves(s, ch, w);
    TracedQuiet(st, s, t, if t.trace == s.trace then [] else [Shaken(ch)]);
  }

  lemma TracedCall(st: Setting, s: Peer, ch: nat, i: nat, host: string, port: nat, answer: Option<seq<Addr>>)
    requires LabelsTraced(st, s) && ch < |s.channels|
    ensures LabelsTraced(st, Calls(st, s, ch, i, host, port, answer))
  {
    var t := Calls(st, s, ch, i, host, port, answer);
    var e := Dialled(ch, PeerDial(st, s.room.target, host, port, answer));
    TracedQuiet(st, s, t, if t.trace == s.trace then [] else [e]);
  }

  lemma TracedStep(st: Setting, s: Peer, step: Step)
    requires LabelsTraced(st, s)
    ensures LabelsTraced(st, Apply(st, s, step))
  {
    match step
    case Announce(l, reliable) =>
    case Receive(ch, message, sent) => if ch < |s.channels| { TracedReceive(st, s, ch, message, sent); }
    case Serve(ch, w) => if ch < |s.channels| { TracedServe(st, s, ch, w); }
    case Call(ch, i, host, port, answer) => if ch < |s.channels| { TracedCall(st, s, ch, i, host, port, answer); }
    case Work(t) =>
  }

  lemma {:induction false} RunTraced(st: Setting, s: Peer, steps: seq<Step>)
    requires LabelsTraced(st, s)
    ensures LabelsTraced(st, RunFrom(st, s, steps))
    decreases |steps|
  {
    if steps != [] {
      TracedStep(st, s, steps[0]);
      RunTraced(st, Apply(st, s, steps[0]), steps[1..]);
    }
  }

  /** There are four valid labels, so the limit of four never stops a new one. */
  lemma RoomForLabel(st: Setting, labels: set<Label>, name: Label)
    requires (forall l :: l in labels ==> ValidLabel(st, l)) && ValidLabel(st, name) && name !in labels
    ensures |labels| < 4
  {
    var four := {ControlLabel, Interactive, Bulk, Guacamole};
    assert labels + {name} <= four;
    W.SubsetSize(labels + {name}, four);
  }

  /** In every reachable state, a message on a channel at its first stage admits the channel if and only if it
      is a token with the peer's digest and no channel was admitted under the label before; the reply then
      brings it to its next stage, and anything else changes nothing. */
  lemma AdmittedExactly(st: Setting, steps: seq<Step>, ch: nat, message: Message, sent: bool)
    requires var s := Run(st, steps); ch < |s.channels| && s.channels[ch].stage.Unproved?
    ensures var s := Run(st, steps); var t := Apply(st, s, Receive(ch, message, sent)); var name := s.channels[ch].name;
      if message == Token(st.digest) && Free(s.trace, name) then
        && t.trace == s.trace + [Admitted(ch, st.digest, name)] + (if sent then [Answered(ch)] else [])
        && |t.channels| == |s.channels|
        && t.channels[ch].stage == (if !sent then Unproved else if name == ControlLabel then Controlling else Awaiting)
      else t == s
  {
    RunTraced(st, START, steps);
    var s := Run(st, steps);
    var name := s.channels[ch].name;
    TracedMeans(st, s, name);
    if name !in s.labels {
      RoomForLabel(st, s.labels, name);
    }
  }

  /** A channel is listened to if and only if it is reliable and has one of the four labels, guacamole only for a
      configured service of that kind. */
  lemma AnnouncedExactly(env: Env, c: Config, service: string, temporary: bool, digest: Digest, s: Peer, name: Label, reliable: bool)
    requires GoodConfig(env, c)
    ensures var st := Setting(T.Setting(env, PolicyOf(env, c), service, temporary), digest); var t := Apply(st, s, Announce(name, reliable));
      if reliable && (name in {ControlLabel, Interactive, Bulk} || (name == Guacamole && !temporary && IsGuacamole(c, service))) then
        t == s.(channels := s.channels + [Channel(name, Unproved, W.START, map[])])
      else t == s
  {
    GuacamoleLabel(env, c, Setting(T.Setting(env, PolicyOf(env, c), service, temporary), digest));
  }

  lemma GuacamoleLabel(env: Env, c: Config, st: Setting)
    requires GoodConfig(env, c) && st.room.policy == PolicyOf(env, c)
    ensures ValidLabel(st, Guacamole) <==> !st.room.temporary && IsGuacamole(c, st.room.service)
  {
    ByIdExact(env, c.services, st.room.service);
  }

  predicate IsGuacamole(c: Config, service: string) {
    exists i :: 0 <= i < |c.services| && c.services[i].id == service && c.services[i].kind == "guacamole"
  }

  // ----- the temporary target -----

  /** What a step does to the peer's temporary target: the control channel asks, the goroutines do the rest. */
  function RoomPart(s: Peer, step: Step): seq<T.Step> {
    match step
    case Receive(ch, TargetRequest(r), sent) => if ch < |s.channels| && s.channels[ch].stage.Controlling? then [T.Ask(r, sent)] else []
    case Receive(ch, DiagnosticRequest, _) => if ch < |s.channels| && s.channels[ch].stage.Controlling? then [T.AskDiagnostic] else []
    case Work(t) => if t.Ask? || t.AskDiagnostic? then [] else [t]
    case _ => []
  }

  function RoomSteps(st: Setting, s: Peer, steps: seq<Step>): seq<T.Step>
    decreases |steps|
  {
    if steps == [] then [] else RoomPart(s, steps[0]) + RoomSteps(st, Apply(st, s, steps[0]), steps[1..])
  }

  lemma RoomStep(st: Setting, s: Peer, step: Step)
    ensures var part := RoomPart(s, step);
      Apply(st, s, step).room == if part == [] then s.room else T.Apply(st.room, s.room, part[0])
  {
  }

  lemma {:induction false} RoomFrom(st: Setting, s: Peer, steps: seq<Step>)
    ensures RunFrom(st, s, steps).room == T.RunFrom(st.room, s.room, RoomSteps(st, s, steps))
    decreases |steps|
  {
    if steps != [] {
      var part, rest := RoomPart(s, steps[0]), RoomSteps(st, Apply(st, s, steps[0]), steps[1..]);
      RoomStep(st, s, steps[0]);
      RoomFrom(st, Apply(st, s, steps[0]), steps[1..]);
      if part == [] {
        assert part + rest == rest;
      } else {
        assert (part + rest)[1..] == rest;
      }
    }
  }

  /** In every run of a peer its temporary target is a run of the preparations, in which every request came over an
      admitted control channel; so what is proved of them holds of the peer. */
  lemma RoomIsItsRun(st: Setting, steps: seq<Step>)
    ensures Run(st, steps).room == T.Run(st.room, RoomSteps(st, START, steps))
  {
    RoomFrom(st, START, steps);
  }

  // ----- from a fresh channel to a dial -----

  /** The labels of the data channels: guacamole only for a configured service of that kind. */
  predicate DataLabel(st: Setting, name: Label) {
    name == Interactive || name == Bulk
    || (name == Guacamole && !st.room.temporary && st.room.service in st.room.policy.byId
        && st.room.policy.byId[st.room.service].config.kind == "guacamole")
  }

  lemma RunCons(st: Setting, s: Peer, step: Step, rest: seq<Step>)
    ensures RunFrom(st, s, [step] + rest) == RunFrom(st, Apply(st, s, step), rest)
  {
    assert ([step] + rest)[1..] == rest;
  }

  /** What a client sends on a fresh channel up to its first ready message. */
  function Opening(ch: nat, name: Label, digest: Digest): seq<Step> {
    [Announce(name, true)] + ([Receive(ch, Token(digest), true)] + ([Receive(ch, Ready, true)] + []))
  }

  lemma Opened(st: Setting, s: Peer, name: Label)
    requires LabelsTraced(st, s) && DataLabel(st, name) && Free(s.trace, name)
    ensures var ch := |s.channels|; var t := RunFrom(st, s, Opening(ch, name, st.digest));
      && t.channels == s.channels + [Channel(name, Serving, W.START, map[])] && t.room == s.room
      && t.trace == s.trace + [Admitted(ch, st.digest, name), Answered(ch), Readied(ch)]
  {
    var ch := |s.channels|;
    var s1 := Apply(st, s, Announce(name, true));
    assert s1 == s.(channels := s.channels + [Channel(name, Unproved, W.START, map[])]);
    assert name !in s.labels && |s.labels| < 4 by {
      TracedMeans(st, s, name);
      RoomForLabel(st, s.labels, name);
    }
    LastProves(st, s1, ch, name);
    var s2 := Apply(st, s1, Receive(ch, Token(st.digest), true));
    LastReadies(st, s2, ch, name);
    var s3 := Apply(st, s2, Receive(ch, Ready, true));
    assert s3.channels == s.channels + [Channel(name, Serving, W.START, map[])];
    assert s3.trace == s.trace + [Admitted(ch, st.digest, name), Answered(ch), Readied(ch)];
    RunCons(st, s, Announce(name, true), [Receive(ch, Token(st.digest), true)] + ([Receive(ch, Ready, true)] + []));
    RunCons(st, s1, Receive(ch, Token(st.digest), true), [Receive(ch, Ready, true)] + []);
    RunCons(st, s2, Receive(ch, Ready, true), []);
  }

  lemma LastProves(st: Setting, s: Peer, ch: nat, name: Label)
    requires |s.channels| == ch + 1 && s.channels[ch] == Channel(name, Unproved, W.START, map[]) && !name.ControlLabel?
    requires name !in s.labels && |s.labels| < 4
    ensures var t := Apply(st, s, Receive(ch, Token(st.digest), true));
      && t.channels == s.channels[..ch] + [Channel(name, Awaiting, W.START, map[])] && t.room == s.room
      && t.trace == s.trace + [Admitted(ch, st.digest, name)] + [Answered(ch)]
  {
  }

  lemma LastReadies(st: Setting, s: Peer, ch: nat, name: Label)
    requires |s.channels| == ch + 1 && s.channels[ch] == Channel(name, Awaiting, W.START, map[])
    ensures var t := Apply(st, s, Receive(ch, Ready, true));
      && t.channels == s.channels[..ch] + [Channel(name, Serving, W.START, map[])] && t.room == s.room
      && t.trace == s.trace + [Readied(ch)]
  {
  }

  /** Then the Wisp handshake, a CONNECT, and the dial of the new stream. */
  function Connecting(ch: nat, id: StreamId, host: string, port: nat, answer: Option<seq<Addr>>): seq<Step> {
    [Serve(ch, W.Handshake)] + ([Serve(ch, W.Step.Open(id))] + ([Call(ch, 0, host, port, answer)] + []))
  }

  lemma Connected(st: Setting, s: Peer, ch: nat, name: Label, id: StreamId, host: string, port: nat, answer: Option<seq<Addr>>)
    requires ch < |s.channels| && s.channels[ch] == Channel(name, Serving, W.START, map[])
    ensures RunFrom(st, s, Connecting(ch, id, host, port, answer)).trace
         == s.trace + [Shaken(ch), Dialled(ch, PeerDial(st, s.room.target, host, port, answer))]
  {
    var s1 := Apply(st, s, Serve(ch, W.Handshake));
    assert s1.trace == s.trace + [Shaken(ch)] && s1.channels[ch].server == W.START.(handshaken := true);
    var s2 := Apply(st, s1, Serve(ch, W.Step.Open(id)));
    assert |s2.channels[ch].server.all| == 1 && s2.channels[ch].calls == map[] && s2.trace == s1.trace && s2.room == s.room;
    var s3 := Apply(st, s2, Call(ch, 0, host, port, answer));
    assert s3.trace == s.trace + [Shaken(ch), Dialled(ch, PeerDial(st, s.room.target, host, port, answer))];
    RunCons(st, s, Serve(ch, W.Handshake), [Serve(ch, W.Step.Open(id))] + ([Call(ch, 0, host, port, answer)] + []));
    RunCons(st, s1, Serve(ch, W.Step.Open(id)), [Call(ch, 0, host, port, answer)] + []);
    RunCons(st, s2, Call(ch, 0, host, port, answer), []);
  }

  /** From every reachable state in which a data label is free, a fresh channel under it that shows the token,
      sends ready, shakes hands and opens a stream gets to its dial, through exactly these events. */
  lemma DialIsReached(st: Setting, steps: seq<Step>, name: Label, id: StreamId, host: string, port: nat, answer: Option<seq<Addr>>)
    requires DataLabel(st, name) && Free(Run(st, steps).trace, name)
    ensures var s := Run(st, steps); var ch := |s.channels|;
      RunFrom(st, RunFrom(st, s, Opening(ch, name, st.digest)), Connecting(ch, id, host, port, answer)).trace
        == s.trace + [Admitted(ch, st.digest, name), Answered(ch), Readied(ch), Shaken(ch),
                      Dialled(ch, PeerDial(st, s.room.target, host, port, answer))]
  {
    RunTraced(st, START, steps);
    var s := Run(st, steps);
    var ch := |s.channels|;
    Opened(st, s, name);
    var t := RunFrom(st, s, Opening(ch, name, st.digest));
    Connected(st, t, ch, name, id, host, port, answer);
    var dial := Dialled(ch, PeerDial(st, s.room.target, host, port, answer));
    assert s.trace + [Admitted(ch, st.digest, name), Answered(ch), Readied(ch)] + [Shaken(ch), dial]
        == s.trace + [Admitted(ch, st.digest, name), Answered(ch), Readied(ch), Shaken(ch), dial];
  }

  /** The control channel likewise hands a target request to the preparations. */
  lemma RequestIsReached(st: Setting, steps: seq<Step>, r: T.Request, sent: bool)
    requires Free(Run(st, steps).trace, ControlLabel)
    ensures var s := Run(st, steps); var ch := |s.channels|;
      RunFrom(st, s, [Announce(ControlLabel, true)] + ([Receive(ch, Token(st.digest), true)] + ([Receive(ch, TargetRequest(r), sent)] + []))).room
        == T.Apply(st.room, s.room, T.Ask(r, sent))
  {
    RunTraced(st, START, steps);
    var s := Run(st, steps);
    var ch := |s.channels|;
    var s1 := Apply(st, s, Announce(ControlLabel, true));
    assert s1.channels == s.channels + [Channel(ControlLabel, Unproved, W.START, map[])];
    TracedMeans(st, s, ControlLabel);
    RoomForLabel(st, s.labels, ControlLabel);
    var s2 := Apply(st, s1, Receive(ch, Token(st.digest), true));
    assert s2.channels[ch].stage == Controlling && s2.room == s.room;
    RunCons(st, s, Announce(ControlLabel, true), [Receive(ch, Token(st.digest), true)] + ([Receive(ch, TargetRequest(r), sent)] + []));
    RunCons(st, s1, Receive(ch, Token(st.digest), true), [Receive(ch, TargetRequest(r), sent)] + []);
    RunCons(st, s2, Receive(ch, TargetRequest(r), sent), []);
  }
}
