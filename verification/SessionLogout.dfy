/** What is left of a user's sessions after a logout: nothing but what a Create that was already under way
    still inserts. */
module SessionLogout {
  import opened Clock
  import opened Options
  import opened Store
  import opened Sessions

  /** A session of the user that is not revoked. */
  predicate Unrevoked(s: Sys, id: string, user: Digest) {
    id in s.db.sessions && s.db.sessions[id].user == user && s.db.sessions[id].revokedAt.None?
  }

  /** A Create call of the user that has not returned. */
  predicate UnderWay(s: Sys, tid: nat, user: Digest) {
    tid in s.threads && WellStaged(s.threads[tid]) && s.threads[tid].call.Create? && s.threads[tid].user == user && !s.threads[tid].stage.Finished?
  }

  predicate Returned(s: Sys, tid: nat) {
    tid in s.threads && s.threads[tid].stage.Finished? && s.threads[tid].stage.result.Some?
  }

  /** The user does not connect again; revoking is allowed. */
  predicate Quiet(step: Step, user: Digest) {
    !(step.Call? && step.call.Create?) || step.user != user
  }

  ghost predicate AllQuiet(steps: seq<Step>, user: Digest) {
    forall i :: 0 <= i < |steps| ==> Quiet(steps[i], user)
  }

  /** The statement that revokes the session, or all of the user's. */
  predicate Revokes(step: Step, id: string, user: Digest) {
    (step.RevokeOne? && step.id == id && step.user == user) || (step.RevokeUser? && step.user == user)
  }

  /** The Creates still under way were under way in s. */
  ghost predicate NoNewCreates(s: Sys, t: Sys, user: Digest) {
    forall tid :: UnderWay(t, tid, user) ==> UnderWay(s, tid, user)
  }

  /** The Creates that were under way in s are the same calls. */
  ghost predicate SameCalls(s: Sys, t: Sys, user: Digest) {
    forall tid :: UnderWay(s, tid, user) ==>
      tid in t.threads && t.threads[tid].call == s.threads[tid].call && t.threads[tid].user == user && WellStaged(t.threads[tid])
  }

  /** In t, with this step, a Create that was under way in s returns the session. */
  predicate Delivers(s: Sys, t: Sys, step: Step, id: string, user: Digest) {
    && step.Go? && UnderWay(s, step.tid, user) && s.threads[step.tid].call.newId == id
    && !Returned(t, step.tid) && Returned(Apply(t, step), step.tid)
  }

  /** What one statement of a call does to the user's sessions: only the last statement of a Create of the
      user adds one, and none is revoked. */
  lemma StatementAdds(db: Db, t: Thread, id: string, user: Digest)
    requires WellStaged(t)
    ensures var (after, u) := Advance(db, t);
      var added := t.call.Create? && t.user == user && t.stage.Commit? && u.stage.Finished? && u.stage.result.Some? && t.call.newId == id;
      && (id in db.sessions ==> id in after.sessions && after.sessions[id].user == db.sessions[id].user
                                && after.sessions[id].revokedAt == db.sessions[id].revokedAt)
      && (added ==> id in after.sessions && after.sessions[id].user == user && after.sessions[id].revokedAt.None?)
      && (id !in db.sessions && id in after.sessions && after.sessions[id].user == user ==> added)
  {
  }

  /** A Create that returns a session has just run its last statement. */
  lemma ReturnsFromCommit(db: Db, t: Thread)
    requires WellStaged(t) && t.call.Create? && !t.stage.Finished?
    ensures var u := Advance(db, t).1; u.stage.Finished? && u.stage.result.Some? ==> t.stage.Commit?
  {
  }

  lemma GoShape(t: Sys, tid: nat)
    requires tid in t.threads && WellStaged(t.threads[tid])
    ensures var u := Apply(t, Go(tid)); var (after, thread) := Advance(t.db, t.threads[tid]);
      u.db == after && u.threads == t.threads[tid := thread]
  {
  }

  /** One turn of a call. */
  lemma GoExact(s: Sys, t: Sys, tid: nat, id: string, user: Digest)
    requires NoNewCreates(s, t, user) && SameCalls(s, t, user) && tid in t.threads && WellStaged(t.threads[tid])
    ensures Unrevoked(Apply(t, Go(tid)), id, user) <==> Unrevoked(t, id, user) || Delivers(s, t, Go(tid), id, user)
  {
    var thread := t.threads[tid];
    GoShape(t, tid);
    StatementAdds(t.db, thread, id, user);
    if Delivers(s, t, Go(tid), id, user) {
      ReturnsFromCommit(t.db, thread);
    }
    assert thread.call.Create? && thread.user == user && thread.stage.Commit? ==> UnderWay(t, tid, user);
  }

  lemma GoCalls(s: Sys, t: Sys, tid: nat, user: Digest)
    requires NoNewCreates(s, t, user) && SameCalls(s, t, user) && tid in t.threads && WellStaged(t.threads[tid])
    ensures NoNewCreates(s, Apply(t, Go(tid)), user) && SameCalls(s, Apply(t, Go(tid)), user)
  {
    GoShape(t, tid);
  }

  /** Every other step leaves the user's calls alone, and their sessions but for a revocation. */
  lemma OtherExact(t: Sys, step: Step, id: string, user: Digest)
    requires !step.Go?
    ensures Unrevoked(Apply(t, step), id, user) <==> Unrevoked(t, id, user) && !Revokes(step, id, user)
  {
  }

  lemma OtherCalls(t: Sys, step: Step, user: Digest)
    requires !step.Go? && Quiet(step, user)
    ensures var u := Apply(t, step);
      && (forall tid :: tid in t.threads ==> tid in u.threads && u.threads[tid] == t.threads[tid])
      && (forall tid :: UnderWay(u, tid, user) ==> UnderWay(t, tid, user))
  {
  }

  /** One step, exactly. */
  lemma StepExact(s: Sys, t: Sys, step: Step, id: string, user: Digest)
    requires NoNewCreates(s, t, user) && SameCalls(s, t, user) && Quiet(step, user)
    ensures var u := Apply(t, step);
      && NoNewCreates(s, u, user) && SameCalls(s, u, user)
      && (Unrevoked(u, id, user) <==> (Unrevoked(t, id, user) && !Revokes(step, id, user)) || Delivers(s, t, step, id, user))
  {
    if !step.Go? {
      OtherCalls(t, step, user);
      OtherExact(t, step, id, user);
    } else if step.tid in t.threads && WellStaged(t.threads[step.tid]) {
      GoCalls(s, t, step.tid, user);
      GoExact(s, t, step.tid, id, user);
    }
  }

  ghost predicate NoneRevokes(steps: seq<Step>, id: string, user: Digest) {
    forall i :: 0 <= i < |steps| ==> !Revokes(steps[i], id, user)
  }

  /** At step k of the run from t the session is delivered, and it is not revoked after that. */
  ghost predicate DeliveredAt(s: Sys, t: Sys, steps: seq<Step>, k: int, id: string, user: Digest) {
    0 <= k < |steps| && Delivers(s, RunFrom(t, steps[..k]), steps[k], id, user) && NoneRevokes(steps[k + 1..], id, user)
  }

  ghost predicate Delivered(s: Sys, t: Sys, steps: seq<Step>, id: string, user: Digest) {
    exists k :: DeliveredAt(s, t, steps, k, id, user)
  }

  lemma DeliveredFirst(s: Sys, t: Sys, step: Step, rest: seq<Step>, id: string, user: Digest)
    ensures DeliveredAt(s, t, [step] + rest, 0, id, user) <==> Delivers(s, t, step, id, user) && NoneRevokes(rest, id, user)
  {
    var steps := [step] + rest;
    assert steps[0] == step && steps[0 + 1..] == rest && steps[..0] == [];
  }

  lemma DeliveredLater(s: Sys, t: Sys, step: Step, rest: seq<Step>, k: int, id: string, user: Digest)
    requires 0 <= k
    ensures DeliveredAt(s, t, [step] + rest, k + 1, id, user) <==> DeliveredAt(s, Apply(t, step), rest, k, id, user)
  {
    if k < |rest| {
      PrefixCons(t, step, rest, k);
    }
  }

  /** The first step of a run, or a later one. */
  lemma DeliveredCons(s: Sys, t: Sys, step: Step, rest: seq<Step>, id: string, user: Digest)
    ensures Delivered(s, t, [step] + rest, id, user)
      <==> (Delivers(s, t, step, id, user) && NoneRevokes(rest, id, user)) || Delivered(s, Apply(t, step), rest, id, user)
  {
    DeliveredFirst(s, t, step, rest, id, user);
    if k :| DeliveredAt(s, Apply(t, step), rest, k, id, user) {
      DeliveredLater(s, t, step, rest, k, id, user);
    }
    if k :| DeliveredAt(s, t, [step] + rest, k, id, user) {
      if k > 0 {
        DeliveredLater(s, t, step, rest, k - 1, id, user);
      }
    }
  }

  lemma PrefixCons(t: Sys, step: Step, rest: seq<Step>, k: int)
    requires 0 <= k < |rest|
    ensures var steps := [step] + rest;
      && steps[k + 1] == rest[k] && steps[k + 2..] == rest[k + 1..]
      && RunFrom(t, steps[..k + 1]) == RunFrom(Apply(t, step), rest[..k])
  {
    var steps := [step] + rest;
    assert steps[..k + 1][1..] == rest[..k] && steps[..k + 1][0] == step;
  }

  lemma {:induction false} RunExact(s: Sys, t: Sys, steps: seq<Step>, id: string, user: Digest)
    requires NoNewCreates(s, t, user) && SameCalls(s, t, user) && AllQuiet(steps, user)
    ensures Unrevoked(RunFrom(t, steps), id, user)
      <==> (Unrevoked(t, id, user) && NoneRevokes(steps, id, user)) || Delivered(s, t, steps, id, user)
    decreases |steps|
  {
    if steps != [] {
      var u, rest := Apply(t, steps[0]), steps[1..];
      assert [steps[0]] + rest == steps;
      StepExact(s, t, steps[0], id, user);
      RunExact(s, u, rest, id, user);
      DeliveredCons(s, t, steps[0], rest, id, user);
      NoneRevokesCons(steps[0], rest, id, user);
    }
  }

  lemma NoneRevokesCons(step: Step, rest: seq<Step>, id: string, user: Digest)
    ensures NoneRevokes([step] + rest, id, user) <==> !Revokes(step, id, user) && NoneRevokes(rest, id, user)
  {
    var steps := [step] + rest;
    assert steps[0] == step && forall i :: 0 <= i < |rest| ==> steps[i + 1] == rest[i];
  }

  lemma LoggedOut(s: Sys, user: Digest, now: int)
    ensures forall id :: !Unrevoked(Apply(s, RevokeUser(user, now)), id, user)
  {
  }

  /** After a logout, in every continuation in which the user does not connect again, a session of the user
      is unrevoked if and only if a Create that was under way at the logout delivered it and it was not
      revoked since. */
  lemma SessionsAfterLogout(before: seq<Step>, user: Digest, now: int, after: seq<Step>, id: string)
    requires AllQuiet(after, user)
    ensures var s := Apply(Run(before), RevokeUser(user, now));
      Unrevoked(RunFrom(s, after), id, user) <==> Delivered(s, s, after, id, user)
  {
    var s := Apply(Run(before), RevokeUser(user, now));
    LoggedOut(Run(before), user, now);
    RunExact(s, s, after, id, user);
  }

  lemma SameUnderWay(s: Sys, t: Sys, user: Digest)
    requires s.threads == t.threads
    ensures forall tid :: UnderWay(s, tid, user) <==> UnderWay(t, tid, user)
  {
  }

  lemma NothingDelivered(s: Sys, after: seq<Step>, id: string, user: Digest)
    requires forall tid :: !UnderWay(s, tid, user)
    ensures !Delivered(s, s, after, id, user)
  {
  }

  /** What a caller can tell at the logout: if no Create of the user is under way, no session of the user is
      ever unrevoked again, until the user connects again. */
  lemma LogoutIsFinal(before: seq<Step>, user: Digest, now: int, after: seq<Step>, id: string)
    requires AllQuiet(after, user) && forall tid :: !UnderWay(Run(before), tid, user)
    ensures !Unrevoked(RunFrom(Apply(Run(before), RevokeUser(user, now)), after), id, user)
  {
    var s := Apply(Run(before), RevokeUser(user, now));
    SessionsAfterLogout(before, user, now, after, id);
    SameUnderWay(s, Run(before), user);
    NothingDelivered(s, after, id, user);
  }

  /** A Create past its authorisation returns a session at its next statement, exactly if its random
      identifier and token are new and its service and agent exist. */
  lemma CommitInserts(s: Sys, tid: nat, user: Digest)
    requires UnderWay(s, tid, user) && s.threads[tid].stage.Commit?
    ensures var c := s.threads[tid].call; var t := Apply(s, Go(tid));
      Returned(t, tid) <==> && c.newId !in s.db.sessions && c.service in s.db.services && s.threads[tid].stage.target.agent in s.db.agents
                            && (forall id :: id in s.db.sessions ==> s.db.sessions[id].token != c.newToken)
  {
  }

  // ----- a session that outlives a logout -----

  /** The request is authorised, the user logs out, and the request inserts its session. */
  function Overtaken(user: Digest, token: Digest, now: int): (before: seq<Step>)
  {
    [AddAgent("agent"), MakeService("service", "agent", "slug", true),
     Call(0, Store.Call.Create("service", "session", token, now), user, now), Go(0), Go(0), Go(0)]
  }

  lemma {:induction false} RunSnoc(s: Sys, steps: seq<Step>, step: Step)
    ensures RunFrom(s, steps + [step]) == Apply(RunFrom(s, steps), step)
  {
    RunAppend(s, steps, [step]);
  }

  lemma ServiceMade()
    ensures var s := Run([AddAgent("agent"), MakeService("service", "agent", "slug", true)]);
      s == START.(db := Db({"agent"}, map["service" := ServiceRow("agent", "slug", true, None, None, None)], map[]))
  {
    var a := Apply(START, AddAgent("agent"));
    assert a == START.(db := Db({"agent"}, map[], map[]));
    RunSnoc(START, [AddAgent("agent")], MakeService("service", "agent", "slug", true));
    assert Run([AddAgent("agent")]) == a;
    assert [AddAgent("agent")] + [MakeService("service", "agent", "slug", true)] == [AddAgent("agent"), MakeService("service", "agent", "slug", true)];
  }

  /** The call sweeps nothing and is authorised. */
  lemma CallAuthorised(s: Sys, user: Digest, token: Digest, now: int)
    requires s == START.(db := Db({"agent"}, map["service" := ServiceRow("agent", "slug", true, None, None, None)], map[]))
    ensures var call := Store.Call.Create("service", "session", token, now);
      var t := Apply(Apply(Apply(Apply(s, Call(0, call, user, now)), Go(0)), Go(0)), Go(0));
      t == s.(threads := map[0 := Thread(call, user, now, Commit(None, Target("agent", false, 0)))])
  {
    var call := Store.Call.Create("service", "session", token, now);
    var s1 := Apply(s, Call(0, call, user, now));
    assert s1 == s.(threads := map[0 := Thread(call, user, now, Begin)]);
    var s2 := Apply(s1, Go(0));
    assert s2 == s.(threads := map[0 := Thread(call, user, now, Sweep(None))]);
    var s3 := Apply(s2, Go(0));
    assert ExpireServices(s.db, now).services == s.db.services;
    assert s3 == s.(threads := map[0 := Thread(call, user, now, Select(None))]);
  }

  lemma OvertakenRuns(user: Digest, token: Digest, now: int)
    ensures var call := Store.Call.Create("service", "session", token, now); var s := Run(Overtaken(user, token, now));
      && s.db == Db({"agent"}, map["service" := ServiceRow("agent", "slug", true, None, None, None)], map[])
      && s.threads == map[0 := Thread(call, user, now, Commit(None, Target("agent", false, 0)))]
  {
    var call := Store.Call.Create("service", "session", token, now);
    var two := [AddAgent("agent"), MakeService("service", "agent", "slug", true)];
    ServiceMade();
    CallAuthorised(Run(two), user, token, now);
    RunSnoc(START, two, Call(0, call, user, now));
    RunSnoc(START, two + [Call(0, call, user, now)], Go(0));
    RunSnoc(START, two + [Call(0, call, user, now)] + [Go(0)], Go(0));
    RunSnoc(START, two + [Call(0, call, user, now)] + [Go(0)] + [Go(0)], Go(0));
    assert Overtaken(user, token, now) == two + [Call(0, call, user, now)] + [Go(0)] + [Go(0)] + [Go(0)];
  }

  /** A session can outlive a logout: a run from the empty store. */
  lemma SessionOutlivesLogout(user: Digest, token: Digest, now: int)
    ensures Unrevoked(Run(Overtaken(user, token, now) + [RevokeUser(user, now)] + [Go(0)]), "session", user)
  {
    var before := Overtaken(user, token, now);
    OvertakenRuns(user, token, now);
    var s := Apply(Run(before), RevokeUser(user, now));
    assert s.db.sessions == map[];
    RunSnoc(START, before, RevokeUser(user, now));
    RunSnoc(START, before + [RevokeUser(user, now)], Go(0));
    CommitInserts(s, 0, user);
    StatementAdds(s.db, s.threads[0], "session", user);
    GoShape(s, 0);
  }
}
