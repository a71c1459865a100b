/** What a request for a temporary target is told, in every reachable state of the peer, when nobody interrupts it. */
module TemporaryAnswer {
  import opened Options
  import opened Cidr
  import opened AgentDial
  import opened TemporaryPeer

  /** One request from its message to the end of its goroutine. */
  function Asking(k: nat, r: Request, answer: Option<seq<Addr>>, local: Option<set<Addr>>, tlsOk: bool): seq<Step> {
    [Ask(r, true)] + ([Look(k)] + ([Step.Resolve(k, answer, local, tlsOk)] + ([Pin(k)] + ([Answer(k, true)] + ([Leave(k)] + [])))))
  }

  /** The reply it deserves: refused when it is malformed or the peer is not temporary, when both slots are taken, when
      a target is pinned already or the request cannot be prepared, in this order. */
  function Verdict(st: Setting, s: Room, r: Request, prepared: Preparation): Code {
    if !st.temporary || !r.wellFormed || r.host == "" || r.port == 0 || r.kind !in {"http", "https"} then InvalidRequest
    else if Held(s.jobs) == 2 then Busy
    else if s.target.Some? then InvalidRequest
    else if !prepared.Prepared? then NotPrepared
    else Ok
  }

  lemma RunCons(st: Setting, s: Room, step: Step, rest: seq<Step>)
    ensures RunFrom(st, s, [step] + rest) == RunFrom(st, Apply(st, s, step), rest)
  {
    assert ([step] + rest)[1..] == rest;
  }

  lemma AskingUnfold(st: Setting, s: Room, k: nat, r: Request, answer: Option<seq<Addr>>, local: Option<set<Addr>>, tlsOk: bool)
    ensures RunFrom(st, s, Asking(k, r, answer, local, tlsOk)) ==
      Apply(st, Apply(st, Apply(st, Apply(st, Apply(st, Apply(st, s, Ask(r, true)), Look(k)), Step.Resolve(k, answer, local, tlsOk)), Pin(k)),
                      Answer(k, true)), Leave(k))
  {
    var s1 := Apply(st, s, Ask(r, true));
    var s2 := Apply(st, s1, Look(k));
    var s3 := Apply(st, s2, Step.Resolve(k, answer, local, tlsOk));
    var s4 := Apply(st, s3, Pin(k));
    var s5 := Apply(st, s4, Answer(k, true));
    var r5 := [Leave(k)] + [];
    var r4 := [Answer(k, true)] + r5;
    var r3 := [Pin(k)] + r4;
    var r2 := [Step.Resolve(k, answer, local, tlsOk)] + r3;
    RunCons(st, s, Ask(r, true), [Look(k)] + r2);
    RunCons(st, s1, Look(k), r2);
    RunCons(st, s2, Step.Resolve(k, answer, local, tlsOk), r3);
    RunCons(st, s3, Pin(k), r4);
    RunCons(st, s4, Answer(k, true), r5);
    RunCons(st, s5, Leave(k), []);
  }

  /** The room with the new goroutine at some point of its work. */
  function With(s: Room, r: Request, phase: Phase): Room {
    s.(slots := s.slots + 1, jobs := s.jobs + [Preparation(r, phase)])
  }

  lemma WithNext(s: Room, r: Request, phase: Phase, next: Phase)
    ensures With(s, r, phase).jobs[|s.jobs| := Preparation(r, next)] == With(s, r, next).jobs
  {
  }

  /** The steps before the reply: a look, the preparation and a second look. */
  lemma Works(st: Setting, s: Room, r: Request, phase: Phase, step: Step)
    requires (step.Look? || step.Resolve? || (step.Pin? && !(phase.Storing? && s.target.None?))) && step.k == |s.jobs|
    ensures Apply(st, With(s, r, phase), step) == With(s, r, Act(st, r, phase, s.target.Some?, step))
  {
    WithNext(s, r, phase, Act(st, r, phase, s.target.Some?, step));
  }

  lemma Pins(st: Setting, s: Room, r: Request, target: Target)
    requires s.target.None?
    ensures Apply(st, With(s, r, Storing(target)), Pin(|s.jobs|)) == With(s.(target := Some(target)), r, Answering(Ok))
  {
    WithNext(s, r, Storing(target), Answering(Ok));
  }

  /** The reply goes out and the slot is given back. */
  lemma Ends(st: Setting, s: Room, r: Request, code: Code)
    ensures Apply(st, Apply(st, With(s, r, Answering(code)), Answer(|s.jobs|, true)), Leave(|s.jobs|))
         == s.(jobs := s.jobs + [Preparation(r, Left(code, true))], replies := s.replies + [code])
  {
    WithNext(s, r, Answering(code), Answered(code, true));
    var t := s.(replies := s.replies + [code]);
    assert Apply(st, With(s, r, Answering(code)), Answer(|s.jobs|, true)) == With(t, r, Answered(code, true));
    WithNext(t, r, Answered(code, true), Left(code, true));
  }

  /** A request that gets no goroutine is answered at once. */
  lemma NotAdmitted(st: Setting, s: Room, k: nat, r: Request, answer: Option<seq<Addr>>, local: Option<set<Addr>>, tlsOk: bool, code: Code)
    requires k == |s.jobs| && Apply(st, s, Ask(r, true)) == s.(replies := s.replies + [code])
    ensures RunFrom(st, s, Asking(k, r, answer, local, tlsOk)) == s.(replies := s.replies + [code])
  {
    AskingUnfold(st, s, k, r, answer, local, tlsOk);
  }

  /** A request that gets one goes through its goroutine. */
  lemma Admitted(st: Setting, s: Room, r: Request, answer: Option<seq<Addr>>, local: Option<set<Addr>>, tlsOk: bool)
    requires Apply(st, s, Ask(r, true)) == With(s, r, Looking)
    ensures var t := RunFrom(st, s, Asking(|s.jobs|, r, answer, local, tlsOk));
      var prepared := Prepare(st.env, st.policy, Wanted(st, r), answer, local, tlsOk);
      var code := if s.target.Some? then InvalidRequest else if prepared.Prepared? then Ok else NotPrepared;
      && t.replies == s.replies + [code] && t.slots == s.slots
      && t.target == if s.target.None? && prepared.Prepared? then Some(prepared.target) else s.target
  {
    var k := |s.jobs|;
    var prepared := Prepare(st.env, st.policy, Wanted(st, r), answer, local, tlsOk);
    AskingUnfold(st, s, k, r, answer, local, tlsOk);
    Works(st, s, r, Looking, Look(k));
    if s.target.Some? {
      Works(st, s, r, Answering(InvalidRequest), Step.Resolve(k, answer, local, tlsOk));
      Works(st, s, r, Answering(InvalidRequest), Pin(k));
      Ends(st, s, r, InvalidRequest);
    } else {
      Works(st, s, r, Preparing, Step.Resolve(k, answer, local, tlsOk));
      if prepared.Prepared? {
        Pins(st, s, r, prepared.target);
        Ends(st, s.(target := Some(prepared.target)), r, Ok);
      } else {
        Works(st, s, r, Answering(NotPrepared), Pin(k));
        Ends(st, s, r, NotPrepared);
      }
    }
  }

  /** In every reachable state a request that nobody interrupts gets exactly the reply it deserves, pins exactly what
      was prepared for the service, kind, host and port it names, and exactly if it is told "ok", and gives its slot
      back. */
  lemma AnsweredExactly(st: Setting, steps: seq<Step>, r: Request, answer: Option<seq<Addr>>, local: Option<set<Addr>>, tlsOk: bool)
    ensures var s := Run(st, steps); var t := RunFrom(st, s, Asking(|s.jobs|, r, answer, local, tlsOk));
      var prepared := Prepare(st.env, st.policy, TemporaryTarget(st.service, r.kind, r.host, r.port), answer, local, tlsOk);
      var code := Verdict(st, s, r, prepared);
      && t.replies == s.replies + [code] && t.slots == s.slots && Held(s.jobs) <= 2
      && t.target == if code == Ok then Some(prepared.target) else s.target
  {
    var s := Run(st, steps);
    EmptyInv(st);
    RunFromInv(st, EMPTY, steps);
    if Apply(st, s, Ask(r, true)).jobs == s.jobs {
      NotAdmitted(st, s, |s.jobs|, r, answer, local, tlsOk, if Proper(st, r) then Busy else InvalidRequest);
    } else {
      Admitted(st, s, r, answer, local, tlsOk);
    }
  }

  /** A diagnostic that is done gives its slot back, in every reachable state. */
  lemma DiagnosticEnds(st: Setting, steps: seq<Step>, k: nat)
    requires var s := Run(st, steps); k < |s.jobs| && s.jobs[k] == Diagnostic(false)
    ensures var s := Run(st, steps);
      && s.slots > 0 && Apply(st, s, Leave(k)) == s.(jobs := s.jobs[k := Diagnostic(true)], slots := s.slots - 1)
  {
    EmptyInv(st);
    RunFromInv(st, EMPTY, steps);
    HeldUpdate(Run(st, steps).jobs, k, Diagnostic(true));
  }
}
