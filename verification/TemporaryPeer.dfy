/** A temporary peer's target: concurrent preparations that race to pin it, two slots shared with the
    diagnostics, and the replies.  One step for every locked region and every channel operation. */
module TemporaryPeer {
  import opened Options
  import opened Cidr
  import opened AgentPolicy
  import opened AgentDial

  const SLOTS: nat := 2

  /** A `temporary_target` message; `wellFormed` is the verdict on its id and its name field. */
  datatype Request = Request(wellFormed: bool, host: string, port: nat, kind: string)

  datatype Code = Ok | InvalidRequest | Busy | NotPrepared

  /** Where a goroutine stands: before the first look at the target, in `PrepareTemporary`, before the
      second look, before its reply is sent, after that, and after giving its slot back. */
  datatype Phase =
    | Looking
    | Preparing
    | Storing(target: Target)
    | Answering(code: Code)
    | Answered(code: Code, sent: bool)
    | Left(code: Code, sent: bool)

  /** A diagnostic only holds a slot until it is done. */
  datatype Job = Diagnostic(done: bool) | Preparation(request: Request, phase: Phase)

  /** `replies` are the results that went out on the control channel. */
  datatype Room = Room(slots: nat, jobs: seq<Job>, target: Option<Target>, replies: seq<Code>)

  const EMPTY := Room(0, [], None, [])

  datatype Step =
    | Ask(request: Request, sent: bool)
    | AskDiagnostic
    | Look(k: nat)
    | Resolve(k: nat, answer: Option<seq<Addr>>, local: Option<set<Addr>>, tlsOk: bool)
    | Pin(k: nat)
    | Answer(k: nat, sent: bool)
    | Leave(k: nat)

  /** What stays the same for a peer. */
  datatype Setting = Setting(env: Env, policy: Policy, service: string, temporary: bool)

  predicate Proper(st: Setting, r: Request) {
    st.temporary && r.wellFormed && r.host != "" && r.port != 0 && (r.kind == "http" || r.kind == "https")
  }

  /** `sendControl`: a reply that cannot be sent is lost. */
  function Send(replies: seq<Code>, code: Code, sent: bool): seq<Code> {
    if sent then replies + [code] else replies
  }

  function Admit(s: Room, job: Job): Room {
    s.(slots := s.slots + 1, jobs := s.jobs + [job])
  }

  function Advance(s: Room, k: nat, phase: Phase): Room
    requires k < |s.jobs| && s.jobs[k].Preparation?
  {
    s.(jobs := s.jobs[k := s.jobs[k].(phase := phase)])
  }

  function Wanted(st: Setting, r: Request): TemporaryTarget {
    TemporaryTarget(st.service, r.kind, r.host, r.port)
  }

  predicate Prepares(s: Room, k: nat) {
    k < |s.jobs| && s.jobs[k].Preparation?
  }

  /** What a preparation does next; the other steps leave it alone. */
  function Act(st: Setting, r: Request, phase: Phase, pinned: bool, step: Step): Phase {
    match step
    case Look(_) => if !phase.Looking? then phase else if pinned then Answering(InvalidRequest) else Preparing
    case Resolve(_, answer, local, tlsOk) =>
      if !phase.Preparing? then phase
      else
        (match Prepare(st.env, st.policy, Wanted(st, r), answer, local, tlsOk)
         case Prepared(target) => Storing(target)
         case _ => Answering(NotPrepared))
    case Pin(_) => if !phase.Storing? then phase else if pinned then Answering(InvalidRequest) else Answering(Ok)
    case Answer(_, sent) => if phase.Answering? then Answered(phase.code, sent) else phase
    case Leave(_) => if phase.Answered? then Left(phase.code, phase.sent) else phase
    case _ => phase
  }

  /** Steps of a goroutine. */
  predicate OfJob(step: Step) {
    !step.Ask? && !step.AskDiagnostic?
  }

  function JobStep(st: Setting, s: Room, step: Step): Room
    requires OfJob(step)
  {
    if step.k >= |s.jobs| then s
    else
      match s.jobs[step.k]
      case Diagnostic(done) =>
        if step.Leave? && !done && s.slots > 0 then s.(jobs := s.jobs[step.k := Diagnostic(true)], slots := s.slots - 1) else s
      case Preparation(request, phase) =>
        if step.Leave? && (!phase.Answered? || s.slots == 0) then s
        else
          var t := Advance(s, step.k, Act(st, request, phase, s.target.Some?, step));
          t.(target := if step.Pin? && phase.Storing? && s.target.None? then Some(phase.target) else s.target,
             replies := if step.Answer? && phase.Answering? then Send(s.replies, phase.code, step.sent) else s.replies,
             slots := if step.Leave? then s.slots - 1 else s.slots)
  }

  function Apply(st: Setting, s: Room, step: Step): Room {
    match step
    case Ask(request, sent) =>
      if !Proper(st, request) then s.(replies := Send(s.replies, InvalidRequest, sent))
      else if s.slots < SLOTS then Admit(s, Preparation(request, Looking))
      else s.(replies := Send(s.replies, Busy, sent))
    case AskDiagnostic => if s.slots < SLOTS then Admit(s, Diagnostic(false)) else s
    case _ => JobStep(st, s, step)
  }

  function RunFrom(st: Setting, s: Room, steps: seq<Step>): Room
    decreases |steps|
  {
    if steps == [] then s else RunFrom(st, Apply(st, s, steps[0]), steps[1..])
  }

  function Run(st: Setting, steps: seq<Step>): Room {
    RunFrom(st, EMPTY, steps)
  }

  // ----- slots -----

  predicate Gone(job: Job) {
    if job.Diagnostic? then job.done else job.phase.Left?
  }

  function Held(jobs: seq<Job>): nat {
    if jobs == [] then 0 else (if Gone(jobs[0]) then 0 else 1) + Held(jobs[1..])
  }

  lemma {:induction false} HeldUpdate(jobs: seq<Job>, k: nat, job: Job)
    requires k < |jobs|
    ensures Held(jobs[k := job]) == Held(jobs) - (if Gone(jobs[k]) then 0 else 1) + (if Gone(job) then 0 else 1)
    decreases |jobs|
  {
    if k > 0 {
      assert jobs[k := job][1..] == jobs[1..][k - 1 := job];
      HeldUpdate(jobs[1..], k - 1, job);
    } else {
      assert jobs[0 := job][1..] == jobs[1..];
    }
  }

  lemma {:induction false} HeldAppend(jobs: seq<Job>, job: Job)
    ensures Held(jobs + [job]) == Held(jobs) + (if Gone(job) then 0 else 1)
    decreases |jobs|
  {
    if jobs != [] {
      assert (jobs + [job])[1..] == jobs[1..] + [job];
      HeldAppend(jobs[1..], job);
    } else {
      assert [job][1..] == [];
    }
  }

  /** Every goroutine that has not left holds exactly one of the two slots. */
  predicate SlotsExact(s: Room) {
    s.slots == Held(s.jobs) <= SLOTS
  }

  lemma JobSlots(st: Setting, s: Room, step: Step)
    requires OfJob(step) && step.k < |s.jobs|
    ensures var t := Apply(st, s, step);
      && |t.jobs| == |s.jobs| && t.jobs == s.jobs[step.k := t.jobs[step.k]]
      && t.slots == s.slots + (if Gone(s.jobs[step.k]) then 0 else -1) + (if Gone(t.jobs[step.k]) then 0 else 1)
  {
  }

  lemma SlotsKept(st: Setting, s: Room, step: Step)
    requires SlotsExact(s)
    ensures SlotsExact(Apply(st, s, step))
  {
    var t := Apply(st, s, step);
    if step.Ask? {
      HeldAppend(s.jobs, Preparation(step.request, Looking));
    } else if step.AskDiagnostic? {
      HeldAppend(s.jobs, Diagnostic(false));
    } else if step.k < |s.jobs| {
      JobSlots(st, s, step);
      HeldUpdate(s.jobs, step.k, t.jobs[step.k]);
    }
  }

  // ----- the target -----

  function Oks(replies: seq<Code>): nat {
    if replies == [] then 0 else (if replies[|replies| - 1].Ok? then 1 else 0) + Oks(replies[..|replies| - 1])
  }

  lemma OksSend(replies: seq<Code>, code: Code, sent: bool)
    ensures Oks(Send(replies, code, sent)) == Oks(replies) + if sent && code.Ok? then 1 else 0
  {
    assert (replies + [code])[..|replies|] == replies;
  }

  /** The target came out of a preparation for this peer's service. */
  ghost predicate Made(st: Setting, target: Target) {
    exists r: Request, answer: Option<seq<Addr>>, local: Option<set<Addr>>, tlsOk: bool ::
      MadeBy(st, target, r, answer, local, tlsOk)
  }

  predicate MadeBy(st: Setting, target: Target, r: Request, answer: Option<seq<Addr>>, local: Option<set<Addr>>, tlsOk: bool) {
    Proper(st, r) && Prepare(st.env, st.policy, Wanted(st, r), answer, local, tlsOk) == Prepared(target)
  }

  ghost predicate JobOk(st: Setting, job: Job) {
    job.Preparation? ==> Proper(st, job.request) && (job.phase.Storing? ==> Made(st, job.phase.target))
  }

  ghost predicate JobsOk(st: Setting, jobs: seq<Job>) {
    forall k :: 0 <= k < |jobs| ==> JobOk(st, jobs[k])
  }

  lemma ActMakes(st: Setting, r: Request, phase: Phase, pinned: bool, step: Step)
    requires JobOk(st, Preparation(r, phase))
    ensures JobOk(st, Preparation(r, Act(st, r, phase, pinned, step)))
  {
    if step.Resolve? && phase.Preparing? {
      var p := Prepare(st.env, st.policy, Wanted(st, r), step.answer, step.local, step.tlsOk);
      if p.Prepared? {
        assert MadeBy(st, p.target, r, step.answer, step.local, step.tlsOk);
      }
    }
  }

  lemma JobsKept(st: Setting, s: Room, step: Step)
    requires JobsOk(st, s.jobs)
    ensures JobsOk(st, Apply(st, s, step).jobs)
  {
    if OfJob(step) && Prepares(s, step.k) {
      assert JobOk(st, s.jobs[step.k]);
      ActMakes(st, s.jobs[step.k].request, s.jobs[step.k].phase, s.target.Some?, step);
    }
  }

  /** The preparation that set the target, whether its "ok" is still to be sent, was sent or was lost. */
  predicate Pinner(job: Job) {
    job.Preparation? && (job.phase.Answering? || job.phase.Answered? || job.phase.Left?) && job.phase.code == Ok
  }

  /** Its "ok" went out. */
  predicate Told(job: Job) {
    Pinner(job) && !job.phase.Answering? && job.phase.sent
  }

  /** Nobody has pinned the target, or exactly one preparation has. */
  ghost predicate PinnedBy(s: Room, k: int) {
    && (k < 0 ==> s.target.None? && Oks(s.replies) == 0)
    && (0 <= k ==> k < |s.jobs| && Pinner(s.jobs[k]) && s.target.Some? && Oks(s.replies) == if Told(s.jobs[k]) then 1 else 0)
    && (forall j :: 0 <= j < |s.jobs| && j != k ==> !Pinner(s.jobs[j]))
  }

  lemma AdmitKeepsPin(s: Room, job: Job, k: int)
    requires PinnedBy(s, k) && !Pinner(job)
    ensures PinnedBy(Admit(s, job), k)
  {
    var jobs := s.jobs + [job];
    assert forall j :: 0 <= j < |s.jobs| ==> jobs[j] == s.jobs[j];
    assert jobs[|s.jobs|] == job;
  }

  lemma RefuseKeepsPin(s: Room, code: Code, sent: bool, k: int)
    requires PinnedBy(s, k) && !code.Ok?
    ensures PinnedBy(s.(replies := Send(s.replies, code, sent)), k)
  {
    OksSend(s.replies, code, sent);
  }

  lemma AskKeepsPin(st: Setting, s: Room, step: Step, k: int)
    requires PinnedBy(s, k) && !OfJob(step)
    ensures PinnedBy(Apply(st, s, step), k) && Apply(st, s, step).target == s.target
  {
    if step.AskDiagnostic? {
      AdmitKeepsPin(s, Diagnostic(false), k);
    } else {
      AdmitKeepsPin(s, Preparation(step.request, Looking), k);
      RefuseKeepsPin(s, InvalidRequest, step.sent, k);
      RefuseKeepsPin(s, Busy, step.sent, k);
    }
  }

  /** Pinning makes the first preparation that gets there the one. */
  lemma PinPins(st: Setting, s: Room, j: nat, k: int)
    requires PinnedBy(s, k) && Prepares(s, j) && s.jobs[j].phase.Storing?
    ensures var t := Apply(st, s, Pin(j));
      && PinnedBy(t, if s.target.Some? then k else j)
      && t.target == if s.target.Some? then s.target else Some(s.jobs[j].phase.target)
  {
  }

  /** Every other step of a goroutine. */
  lemma JobKeepsPin(st: Setting, s: Room, step: Step, k: int)
    requires PinnedBy(s, k) && OfJob(step) && !step.Pin?
    ensures PinnedBy(Apply(st, s, step), k) && Apply(st, s, step).target == s.target
  {
    if step.Answer? && Prepares(s, step.k) && s.jobs[step.k].phase.Answering? {
      OksSend(s.replies, s.jobs[step.k].phase.code, step.sent);
    }
  }

  ghost predicate TargetOk(st: Setting, s: Room) {
    (exists k :: PinnedBy(s, k)) && (s.target.Some? ==> Made(st, s.target.value))
  }

  lemma PinKeepsTarget(st: Setting, s: Room, j: nat)
    requires TargetOk(st, s) && JobsOk(st, s.jobs)
    ensures TargetOk(st, Apply(st, s, Pin(j)))
    ensures s.target.Some? ==> Apply(st, s, Pin(j)).target == s.target
  {
    var k :| PinnedBy(s, k);
    if Prepares(s, j) && s.jobs[j].phase.Storing? {
      assert JobOk(st, s.jobs[j]);
      PinPins(st, s, j, k);
      assert PinnedBy(Apply(st, s, Pin(j)), if s.target.Some? then k else j);
    } else {
      PinIdle(st, s, j);
    }
  }

  lemma PinIdle(st: Setting, s: Room, j: nat)
    requires !(Prepares(s, j) && s.jobs[j].phase.Storing?)
    ensures Apply(st, s, Pin(j)) == s
  {
    if j < |s.jobs| {
      assert s.jobs[j := s.jobs[j]] == s.jobs;
    }
  }

  lemma TargetKept(st: Setting, s: Room, step: Step)
    requires TargetOk(st, s) && JobsOk(st, s.jobs)
    ensures TargetOk(st, Apply(st, s, step))
    ensures s.target.Some? ==> Apply(st, s, step).target == s.target
  {
    if step.Pin? {
      PinKeepsTarget(st, s, step.k);
    } else {
      var k :| PinnedBy(s, k);
      if OfJob(step) { JobKeepsPin(st, s, step, k); } else { AskKeepsPin(st, s, step, k); }
      assert PinnedBy(Apply(st, s, step), k);
    }
  }

  ghost predicate Inv(st: Setting, s: Room) {
    SlotsExact(s) && JobsOk(st, s.jobs) && TargetOk(st, s)
  }

  lemma EmptyInv(st: Setting)
    ensures Inv(st, EMPTY)
  {
    assert PinnedBy(EMPTY, -1);
  }

  lemma StepInv(st: Setting, s: Room, step: Step)
    requires Inv(st, s)
    ensures Inv(st, Apply(st, s, step))
    ensures s.target.Some? ==> Apply(st, s, step).target == s.target
  {
    SlotsKept(st, s, step);
    JobsKept(st, s, step);
    TargetKept(st, s, step);
  }

  lemma {:induction false} RunFromInv(st: Setting, s: Room, steps: seq<Step>)
    requires Inv(st, s)
    ensures Inv(st, RunFrom(st, s, steps))
    ensures s.target.Some? ==> RunFrom(st, s, steps).target == s.target
    decreases |steps|
  {
    if steps != [] {
      StepInv(st, s, steps[0]);
      RunFromInv(st, Apply(st, s, steps[0]), steps[1..]);
    }
  }

  /** In every interleaving of preparations and diagnostics, with replies lost or delayed: at most two
      goroutines run; the target is pinned exactly if one preparation, and never two, has pinned it; at
      most one "ok" goes out, exactly if that preparation got its answer out; and once pinned the target
      never changes. */
  lemma PinnedOnce(st: Setting, steps: seq<Step>, more: seq<Step>)
    ensures var s := Run(st, steps);
      && Held(s.jobs) <= 2
      && (s.target.Some? <==> exists k :: 0 <= k < |s.jobs| && Pinner(s.jobs[k]))
      && (forall j, k :: 0 <= j < k < |s.jobs| ==> !(Pinner(s.jobs[j]) && Pinner(s.jobs[k])))
      && Oks(s.replies) <= 1 && (Oks(s.replies) == 1 <==> exists k :: 0 <= k < |s.jobs| && Told(s.jobs[k]))
      && (s.target.Some? ==> RunFrom(st, s, more).target == s.target)
  {
    EmptyInv(st);
    RunFromInv(st, EMPTY, steps);
    RunFromInv(st, Run(st, steps), more);
    var s := Run(st, steps);
    var k :| PinnedBy(s, k);
    assert 0 <= k ==> Pinner(s.jobs[k]);
  }

  /** A preparation never takes its answer back. */
  lemma AnswerStays(st: Setting, s: Room, step: Step, k: nat)
    requires k < |s.jobs| && Pinner(s.jobs[k]) && !s.jobs[k].phase.Answering?
    ensures var t := Apply(st, s, step); k < |t.jobs| && Pinner(t.jobs[k]) && !t.jobs[k].phase.Answering? && Told(t.jobs[k]) == Told(s.jobs[k])
  {
  }

  /** Being pinned does not mean that somebody was told: if the one "ok" is lost, the target stays pinned
      and no "ok" ever goes out. */
  lemma {:induction false} UntoldForGood(st: Setting, s: Room, steps: seq<Step>, k: nat)
    requires Inv(st, s) && k < |s.jobs| && Pinner(s.jobs[k]) && !s.jobs[k].phase.Answering? && !Told(s.jobs[k])
    ensures var t := RunFrom(st, s, steps); t.target == s.target && t.target.Some? && Oks(t.replies) == 0
    decreases |steps|
  {
    if steps == [] {
      var j :| PinnedBy(s, j);
      assert j == k;
    } else {
      var j :| PinnedBy(s, j);
      assert j == k;
      StepInv(st, s, steps[0]);
      AnswerStays(st, s, steps[0], k);
      UntoldForGood(st, Apply(st, s, steps[0]), steps[1..], k);
    }
  }

  /** And that happens: any request that can be prepared, with its answer lost. */
  lemma PinnedUntold(st: Setting, r: Request, answer: Option<seq<Addr>>, local: Option<set<Addr>>, tlsOk: bool)
    requires Proper(st, r) && Prepare(st.env, st.policy, Wanted(st, r), answer, local, tlsOk).Prepared?
    ensures var s := Run(st, [Ask(r, true), Look(0), Resolve(0, answer, local, tlsOk), Pin(0), Answer(0, false)]);
      Inv(st, s) && s.target.Some? && |s.jobs| == 1 && Pinner(s.jobs[0]) && !s.jobs[0].phase.Answering? && !Told(s.jobs[0])
  {
    var steps := [Ask(r, true), Look(0), Resolve(0, answer, local, tlsOk), Pin(0), Answer(0, false)];
    EmptyInv(st);
    RunFromInv(st, EMPTY, steps);
    var target := Prepare(st.env, st.policy, Wanted(st, r), answer, local, tlsOk).target;
    GetsToStore(st, r, answer, local, tlsOk);
    PinsUntold(st, r, target);
    RunFive(st, EMPTY, steps[0], steps[1], steps[2], steps[3], steps[4]);
  }

  lemma GetsToStore(st: Setting, r: Request, answer: Option<seq<Addr>>, local: Option<set<Addr>>, tlsOk: bool)
    requires Proper(st, r) && Prepare(st.env, st.policy, Wanted(st, r), answer, local, tlsOk).Prepared?
    ensures var target := Prepare(st.env, st.policy, Wanted(st, r), answer, local, tlsOk).target;
      Apply(st, Apply(st, Apply(st, EMPTY, Ask(r, true)), Look(0)), Resolve(0, answer, local, tlsOk))
        == Room(1, [Preparation(r, Storing(target))], None, [])
  {
    GetsToPrepare(st, r);
    Stores(st, r, answer, local, tlsOk);
  }

  lemma GetsToPrepare(st: Setting, r: Request)
    requires Proper(st, r)
    ensures Apply(st, Apply(st, EMPTY, Ask(r, true)), Look(0)) == Room(1, [Preparation(r, Preparing)], None, [])
  {
    var s1 := Apply(st, EMPTY, Ask(r, true));
    assert s1 == Room(1, [Preparation(r, Looking)], None, []);
  }

  lemma Stores(st: Setting, r: Request, answer: Option<seq<Addr>>, local: Option<set<Addr>>, tlsOk: bool)
    requires Prepare(st.env, st.policy, Wanted(st, r), answer, local, tlsOk).Prepared?
    ensures Apply(st, Room(1, [Preparation(r, Preparing)], None, []), Resolve(0, answer, local, tlsOk))
         == Room(1, [Preparation(r, Storing(Prepare(st.env, st.policy, Wanted(st, r), answer, local, tlsOk).target))], None, [])
  {
  }

  lemma PinsUntold(st: Setting, r: Request, target: Target)
    ensures Apply(st, Apply(st, Room(1, [Preparation(r, Storing(target))], None, []), Pin(0)), Answer(0, false))
         == Room(1, [Preparation(r, Answered(Ok, false))], Some(target), [])
  {
    var s := Apply(st, Room(1, [Preparation(r, Storing(target))], None, []), Pin(0));
    assert s == Room(1, [Preparation(r, Answering(Ok))], Some(target), []);
  }

  lemma RunFive(st: Setting, s: Room, a: Step, b: Step, c: Step, d: Step, e: Step)
    ensures RunFrom(st, s, [a, b, c, d, e]) == Apply(st, Apply(st, Apply(st, Apply(st, Apply(st, s, a), b), c), d), e)
  {
    var steps := [a, b, c, d, e];
    assert steps[1..] == [b, c, d, e] && steps[1..][1..] == [c, d, e] && steps[1..][1..][1..] == [d, e];
    assert steps[1..][1..][1..][1..] == [e] && steps[1..][1..][1..][1..][1..] == [];
    var s1 := Apply(st, s, a);
    var s2 := Apply(st, s1, b);
    var s3 := Apply(st, s2, c);
    assert RunFrom(st, s3, [d, e]) == Apply(st, Apply(st, s3, d), e) by {
      assert [d, e][1..] == [e] && [e][1..] == [];
      assert RunFrom(st, Apply(st, s3, d), [e]) == Apply(st, Apply(st, s3, d), e);
    }
    assert RunFrom(st, s2, [c, d, e]) == RunFrom(st, s3, [d, e]) by { assert [c, d, e][1..] == [d, e]; }
    assert RunFrom(st, s1, [b, c, d, e]) == RunFrom(st, s2, [c, d, e]) by { assert [b, c, d, e][1..] == [c, d, e]; }
  }

  /** The target was prepared when the Agent's own addresses were these. */
  ghost predicate PreparedAgainst(st: Setting, target: Target, local: set<Addr>) {
    exists r: Request, answer: Option<seq<Addr>>, tlsOk: bool :: MadeBy(st, target, r, answer, Some(local), tlsOk)
  }

  /** All that is promised of the address and port of a temporary peer's connection. */
  ghost predicate SafeDestination(env: Env, c: Config, st: Setting, target: Target, r: Outcome) {
    && r.Dial? && c.temporary.Some?
    && InCidrs(env, c.temporary.value.cidrs, r.addr) && PrivateRange(r.addr) && !IsLoopback(r.addr)
    && r.port in c.temporary.value.ports
    && exists local: set<Addr> :: PreparedAgainst(st, target, local) && r.addr !in local
  }

  lemma VettedDials(env: Env, c: TemporaryConfig, local: set<Addr>, target: Target, host: string, port: nat)
    requires Vetted(env, c, local, target)
    ensures var r := DialTemporary(env, Some(target), host, port);
      r.Dial? ==> && InCidrs(env, c.cidrs, r.addr) && PrivateRange(r.addr) && !IsLoopback(r.addr) && r.port in c.ports && r.addr !in local
  {
    assert target.addresses != [] && Foreign(local, target.addresses[0]);
  }

  lemma MadeIsVetted(env: Env, c: Config, st: Setting, target: Target) returns (local: set<Addr>)
    requires GoodConfig(env, c) && st.env == env && st.policy == PolicyOf(env, c) && Made(st, target)
    ensures c.temporary.Some? && Vetted(env, c.temporary.value, local, target) && PreparedAgainst(st, target, local)
  {
    var r, answer, maybe, tlsOk :| MadeBy(st, target, r, answer, maybe, tlsOk);
    PreparedIsVetted(env, c, Wanted(st, r), answer, maybe, tlsOk);
    local := maybe.value;
    assert MadeBy(st, target, r, answer, Some(local), tlsOk);
  }

  lemma MadeIsSafe(env: Env, c: Config, st: Setting, target: Target, host: string, port: nat)
    requires GoodConfig(env, c) && st.env == env && st.policy == PolicyOf(env, c) && Made(st, target)
    ensures var r := DialTemporary(env, Some(target), host, port); r.Dial? ==> SafeDestination(env, c, st, target, r)
  {
    var local := MadeIsVetted(env, c, st, target);
    VettedDials(env, c.temporary.value, local, target, host, port);
  }

  /** Under a validated configuration, whatever the interleaving, every dial before, between and after
      goes to one address and port: inside the temporary CIDRs, private, not loopback, not one of the
      Agent's own addresses when it was prepared, and on an allowed port. */
  lemma OneDestination(env: Env, c: Config, service: string, steps: seq<Step>, more: seq<Step>, host: string, port: nat,
                       host': string, port': nat)
    requires GoodConfig(env, c)
    ensures var st := Setting(env, PolicyOf(env, c), service, true);
      var s := Run(st, steps); var t := RunFrom(st, s, more);
      var early, late := DialTemporary(env, s.target, host, port), DialTemporary(env, t.target, host', port');
      && (early.Dial? && late.Dial? ==> early == late)
      && (late.Dial? ==> t.target.Some? && SafeDestination(env, c, st, t.target.value, late))
  {
    var st := Setting(env, PolicyOf(env, c), service, true);
    var s := Run(st, steps);
    EmptyInv(st);
    RunFromInv(st, EMPTY, steps);
    RunFromInv(st, s, more);
    var t := RunFrom(st, s, more);
    if t.target.Some? {
      MadeIsSafe(env, c, st, t.target.value, host', port');
    }
  }
}
