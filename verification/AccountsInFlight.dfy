/** When a completed password reset leaves nothing of the account in flight: from the return
    on, in every continuation, nothing of the user's rests on a code that was claimed before
    or on a row that was read before, exactly when no claim of the user can still be
    committed and no other request of the user is past its check (password_reset_service.py). */
module AccountsInFlight {
  import opened Wrappers
  import opened Otp
  import opened OtpLifecycle
  import opened Accounts
  import opened AccountsProofs
  import opened AccountsOrder
  import opened AccountsSessions
  import opened AccountsSteps
  import opened AccountsSignIn
  import opened AccountsResets

  // -- What is in flight -----------------------------------------------------------

  /** A request of the user that has passed its check, or whose code may still become live: a
      switch cannot, since the challenge it moves away from is gone, nor can an expired code. */
  predicate InFlight(cfg: Config, calls: seq<Call>, task: Task, user: UserId, since: real) {
    match task
    case Identified(u, _, _) => u == user
    case Proven(_, c, _, _) => c.user == user
    case Issuing(u, _, _) => u == user
    case Confirming(u, _, _, _, _) => u == user
    case Resetting(u, _, _, _) => u == user
    case SettingPassword(u, _, _, _) => u == user
    case Changing(change) => change.user == user
    case Sending(id, u, _, supersedes) => supersedes.None? && Claimed(After(cfg, calls).codes, id, user, since)
    case _ => false
  }

  ghost predicate LeavesInFlight(cfg: Config, sys: System, user: UserId) {
    exists t :: t in sys.tasks && InFlight(cfg, sys.calls, sys.tasks[t], user, sys.clock)
  }

  /** The call verified a code of the user that had been claimed early. */
  predicate VerifiesEarly(cfg: Config, calls: seq<Call>, i: nat, early: seq<Call>, user: UserId) {
    i < |calls| && calls[i].op.Verify? && WasMinted(early, calls[i].op.id)
    && AnswerTo(cfg, calls, i).Verified? && AnswerTo(cfg, calls, i).challenge.user == user
  }

  /** A code of the user claimed early, or the user's row as it was read in the first steps. */
  predicate IsEarly(cfg: Config, calls: seq<Call>, early: seq<Call>, steps: nat, user: UserId, basis: Basis) {
    match basis
    case OnNothing => false
    case OnCode(proof) => VerifiesEarly(cfg, calls, proof, early, user)
    case OnRow(u, loadedAt) => u == user && loadedAt < steps
  }

  /** Nothing rests on such a basis, apart from what had been logged before. */
  ghost predicate Clean(sys: System, log: Log, early: Basis -> bool) {
    && (forall t :: t in sys.tasks ==> !early(BasisOf(sys.tasks[t])))
    && (forall k :: k in sys.authorizations ==> !early(OnCode(sys.authorizations[k].proof)))
    && CleanLog(sys.log, log, early)
  }

  ghost predicate CleanLog(now: Log, log: Log, early: Basis -> bool) {
    && log.sessions <= now.sessions && log.passwords <= now.passwords && log.contacts <= now.contacts && log.changes <= now.changes
    && (forall i :: |log.sessions| <= i < |now.sessions| ==> !early(SessionBasis(now.sessions[i])))
    && (forall i :: |log.passwords| <= i < |now.passwords| ==> !early(OnCode(now.passwords[i].proof)))
    && (forall i :: |log.contacts| <= i < |now.contacts| ==> !early(OnCode(now.contacts[i].proof)))
    && forall i :: |log.changes| <= i < |now.changes| ==> !early(OnRow(now.changes[i].user, now.changes[i].loadedAt))
  }

  function Early(cfg: Config, calls: seq<Call>, early: seq<Call>, steps: nat, user: UserId): Basis -> bool {
    (basis: Basis) => IsEarly(cfg, calls, early, steps, user, basis)
  }

  /** In this continuation nothing of the user's rests on what there was at the return. */
  ghost predicate CutOff(cfg: Config, users: map<UserId, User>, past: seq<Moment>, more: seq<Moment>, user: UserId) {
    var now, later := Run(cfg, users, past), Run(cfg, users, past + more);
    Clean(later, now.log, Early(cfg, later.calls, now.calls, |past|, user))
  }

  /** The run ends with the return of a reset. */
  ghost predicate EndsInReturn(cfg: Config, users: map<UserId, User>, past: seq<Moment>, user: UserId) {
    past != [] && Returns(Run(cfg, users, past[..|past| - 1]), past[|past| - 1], user)
  }

  // -- Requests --------------------------------------------------------------------

  /** What is fresh, or rests on what is held, is no early basis. */
  lemma InheritedIsClean(a: System, log: Log, early: Basis -> bool, basis: Basis)
    requires Clean(a, log, early) && Inherits(a, basis) && !early(OnNothing)
    requires forall i: nat :: i >= |a.calls| ==> !early(OnCode(i))
    requires forall u, k: nat :: k >= a.steps ==> !early(OnRow(u, k))
    ensures !early(basis)
  {
  }

  lemma StepStaysClean(a: System, b: System, t: TaskId, log: Log, early: Basis -> bool)
    requires Clean(a, log, early) && Follows(a, b, t) && !early(OnNothing)
    requires forall i: nat :: i >= |a.calls| ==> !early(OnCode(i))
    requires forall u, k: nat :: k >= a.steps ==> !early(OnRow(u, k))
    ensures Clean(b, log, early)
  {
    hide Inherits, WasMinted;
    forall basis | Inherits(a, basis) ensures !early(basis) {
      InheritedIsClean(a, log, early, basis);
    }
    LogStaysClean(a, b, log, early);
    hide CleanLog;
    forall u | u in b.tasks ensures !early(BasisOf(b.tasks[u])) {
      if u != t {
        assert u in b.tasks - {t} && (b.tasks - {t})[u] == (a.tasks - {t})[u];
      }
    }
  }

  lemma LogStaysClean(a: System, b: System, log: Log, early: Basis -> bool)
    requires CleanLog(a.log, log, early) && Logs(a, b.log)
    requires forall basis :: Inherits(a, basis) ==> !early(basis)
    ensures CleanLog(b.log, log, early)
  {
    hide Inherits;
  }

  // -- Codes -----------------------------------------------------------------------

  /** What a send of a challenge can no longer make usable. */
  predicate Hopeless(cfg: Config, calls: seq<Call>, id: ChallengeId, supersedes: Option<ChallengeId>, user: UserId, since: real) {
    if supersedes.Some? then Dead(cfg, calls, supersedes.value) else !Claimed(After(cfg, calls).codes, id, user, since)
  }

  /** No early code of the user has been usable since. */
  ghost predicate NoneUsable(cfg: Config, calls: seq<Call>, early: seq<Call>, user: UserId, since: real) {
    forall i, id :: |early| <= i <= |calls| && WasMinted(early, id) ==> !Usable(After(cfg, calls[..i]).codes, id, user, since)
  }

  /** Nor will it be: the sends of the user's that are awaited are hopeless. */
  ghost predicate Closed(cfg: Config, sys: System, early: seq<Call>, user: UserId, since: real) {
    && early <= sys.calls && NoneUsable(cfg, sys.calls, early, user, since)
    && forall t :: t in sys.tasks && sys.tasks[t].Sending? && sys.tasks[t].user == user && WasMinted(early, sys.tasks[t].id) ==>
      Hopeless(cfg, sys.calls, sys.tasks[t].id, sys.tasks[t].supersedes, user, since)
  }

  lemma MintedStays(calls: seq<Call>, more: seq<Call>, id: ChallengeId)
    requires calls <= more && WasMinted(calls, id)
    ensures WasMinted(more, id)
  {
    var i :| 0 <= i < |calls| && Mints(calls[i].op) && calls[i].op.id == id;
    assert more[i] == calls[i];
  }

  /** A challenge drawn before `m` and pending later was pending, unchanged, at `m`. */
  lemma {:induction false} WasPending(cfg: Config, calls: seq<Call>, m: nat, i: nat, id: ChallengeId)
    requires FreshIds(calls) && m <= i <= |calls| && WasMinted(calls[..m], id) && id in After(cfg, calls[..i]).codes.pending
    ensures id in After(cfg, calls[..m]).codes.pending
    ensures After(cfg, calls[..m]).codes.pending[id] == After(cfg, calls[..i]).codes.pending[id]
  {
    hide Step;
    if m < i {
      var n := i - 1;
      assert calls[..i][..n] == calls[..n] && calls[..i][n] == calls[n];
      StepAt(cfg, After(cfg, calls[..n]), calls[n].op, calls[n].at, id);
      var k :| 0 <= k < m && Mints(calls[..m][k].op) && calls[..m][k].op.id == id;
      assert calls[k] == calls[..m][k];
      WasPending(cfg, calls, m, n, id);
    }
  }

  lemma DeadStays(cfg: Config, calls: seq<Call>, m: nat, i: nat, id: ChallengeId)
    requires FreshIds(calls) && m <= i <= |calls| && Dead(cfg, calls[..m], id)
    ensures Dead(cfg, calls[..i], id)
  {
    hide After, WasMinted;
    assert calls[..m] + calls[m..i] == calls[..i];
    assert FreshIds(calls[..i]);
    StaysDead(cfg, calls[..m], calls[m..i], id);
    MintedStays(calls[..m], calls[..i], id);
  }

  /** The commit of an early challenge of the user that might be used is refused. */
  lemma CommitIsRefused(cfg: Config, a: System, calls: seq<Call>, j: nat, early: seq<Call>, user: UserId, since: real)
    requires Closed(cfg, a, early, user, since) && Orderly(cfg, a) && a.calls <= calls && FreshIds(calls) && |a.calls| <= j < |calls|
    requires calls[j].op.Commit? && WasMinted(early, calls[j].op.id) && Claimed(After(cfg, calls[..j]).codes, calls[j].op.id, user, since)
    requires !WasMinted(a.calls, calls[j].op.id) || SentBy(a, calls[j].op.id, calls[j].op.supersedes)
    ensures AnswerTo(cfg, calls, j) != Accepted
  {
    hide Step, After, WasMinted, Dead, NeverLive, NoneUsable, ProperCalls, Own;
    var id, m := calls[j].op.id, |a.calls|;
    assert calls[..m] == a.calls;
    MintedStays(early, a.calls, id);
    var t :| t in a.tasks && a.tasks[t].Sending? && a.tasks[t].id == id && a.tasks[t].supersedes == calls[j].op.supersedes;
    assert InOrder(cfg, a.calls, a.tasks[t]);
    WasPending(cfg, calls, m, j, id);
    CommitTakesPending(cfg, After(cfg, calls[..j]), calls[j].op, calls[j].at);
    if calls[j].op.supersedes.Some? {
      DeadStays(cfg, calls, m, j, calls[j].op.supersedes.value);
      DeadIsNotLive(cfg, calls[..j], calls[j].op.supersedes.value);
    }
  }

  lemma DeadIsNotLive(cfg: Config, calls: seq<Call>, id: ChallengeId)
    requires Dead(cfg, calls, id)
    ensures id !in After(cfg, calls).codes.live
  {
  }

  lemma CodesStayClosed(cfg: Config, a: System, b: System, early: seq<Call>, user: UserId, since: real)
    requires Closed(cfg, a, early, user, since) && Orderly(cfg, a) && Asks(a, b) && FreshIds(b.calls)
    ensures NoneUsable(cfg, b.calls, early, user, since)
  {
    hide Step, After, WasMinted, Orderly, SentBy, Usable, Claimed;
    forall i, id | |early| <= i <= |b.calls| && WasMinted(early, id) ensures !Usable(After(cfg, b.calls[..i]).codes, id, user, since) {
      var m := |a.calls|;
      assert b.calls[..m] == a.calls[..m] && a.calls[..m] == a.calls;
      if i <= m {
        assert b.calls[..i] == a.calls[..i];
      } else if Usable(After(cfg, b.calls[..i]).codes, id, user, since) {
        assert !Usable(After(cfg, a.calls[..m]).codes, id, user, since);
        var j := UsableSince(cfg, b.calls, m, i, id, user, since);
        CommitIsRefused(cfg, a, b.calls, j, early, user, since);
      }
    }
  }

  lemma StepStaysClosed(cfg: Config, a: System, b: System, t: TaskId, early: seq<Call>, user: UserId, since: real)
    requires Closed(cfg, a, early, user, since) && Orderly(cfg, a) && Follows(a, b, t) && FreshIds(b.calls)
    ensures Closed(cfg, b, early, user, since)
  {
    hide After, WasMinted, Orderly, Inherits, NoneUsable, Dead, Logs, SentBy;
    CodesStayClosed(cfg, a, b, early, user, since);
    var m := |a.calls|;
    assert b.calls[..m] == a.calls && b.calls[..|b.calls|] == b.calls;
    forall u | u in b.tasks && b.tasks[u].Sending? && b.tasks[u].user == user && WasMinted(early, b.tasks[u].id)
      ensures Hopeless(cfg, b.calls, b.tasks[u].id, b.tasks[u].supersedes, user, since)
    {
      var Sending(id, _, _, supersedes) := b.tasks[u];
      MintedStays(early, a.calls, id);
      if u != t {
        assert u in b.tasks - {t} && (b.tasks - {t})[u] == (a.tasks - {t})[u];
      }
      assert u in a.tasks && b.tasks[u] == a.tasks[u];
      if supersedes.Some? {
        DeadStays(cfg, b.calls, m, |b.calls|, supersedes.value);
      } else if Claimed(After(cfg, b.calls).codes, id, user, since) {
        WasPending(cfg, b.calls, m, |b.calls|, id);
      }
    }
  }

  // -- From the return on ----------------------------------------------------------

  lemma ReturnState(cfg: Config, users: map<UserId, User>, past: seq<Moment>, user: UserId)
    requires EndsInReturn(cfg, users, past, user)
    ensures
      var before, now := Run(cfg, users, past[..|past| - 1]), Run(cfg, users, past);
      && now.tasks == before.tasks - {past[|past| - 1].action.task} && now.calls == before.calls + [Call(Invalidate(user), now.clock)]
      && (forall id :: id in After(cfg, now.calls).codes.live ==> After(cfg, now.calls).codes.live[id].user != user)
      && forall k :: k in now.authorizations ==> now.authorizations[k].user != user
  {
    hide After;
    var n := |past| - 1;
    var before, m := Run(cfg, users, past[..n]), past[n];
    assert past[..n + 1] == past;
    RunNext(cfg, users, past, n);
    hide Run;
    ReturnClears(cfg, before, m, user);
    CompleteClears(cfg, before.(clock := m.at), m.action.task, m.at);
  }

  lemma ReturnCloses(cfg: Config, users: map<UserId, User>, past: seq<Moment>, user: UserId)
    requires EndsInReturn(cfg, users, past, user) && !LeavesInFlight(cfg, Run(cfg, users, past), user)
    ensures var now := Run(cfg, users, past); Closed(cfg, now, now.calls, user, now.clock)
  {
    hide Run, After, WasMinted, NeverLive, EndsInReturn;
    var now := Run(cfg, users, past);
    ReturnState(cfg, users, past, user);
    EveryRunIsOrderly(cfg, users, past);
    assert now.calls[..|now.calls|] == now.calls;
    forall t | t in now.tasks && now.tasks[t].Sending? && now.tasks[t].user == user
      ensures Hopeless(cfg, now.calls, now.tasks[t].id, now.tasks[t].supersedes, user, now.clock)
    {
      assert !InFlight(cfg, now.calls, now.tasks[t], user, now.clock);
      assert InOrder(cfg, now.calls, now.tasks[t]);
    }
  }

  lemma {:induction false} RunStaysClosed(cfg: Config, users: map<UserId, User>, past: seq<Moment>, more: seq<Moment>, user: UserId)
    requires EndsInReturn(cfg, users, past, user) && !LeavesInFlight(cfg, Run(cfg, users, past), user)
    ensures var now := Run(cfg, users, past); Closed(cfg, Run(cfg, users, past + more), now.calls, user, now.clock)
  {
    hide Run, Perform, Closed, EndsInReturn, LeavesInFlight, Orderly, Sound, Follows, MintedBy;
    var now := Run(cfg, users, past);
    if more == [] {
      assert past + more == past;
      ReturnCloses(cfg, users, past, user);
    } else {
      var n, all := |more| - 1, past + more;
      assert all[..|past| + n] == past + more[..n] && all[..|past| + n + 1] == all;
      RunStaysClosed(cfg, users, past, more[..n], user);
      var before, after, m := Run(cfg, users, past + more[..n]), Run(cfg, users, all), more[n];
      EveryRunIsOrderly(cfg, users, past + more[..n]);
      EveryRunIsSound(cfg, users, all);
      RunNext(cfg, users, all, |past| + n);
      NextFollows(cfg, before, m);
      StepStaysClosed(cfg, before, after, Actor(m.action), now.calls, user, now.clock);
    }
  }

  lemma NextFollows(cfg: Config, sys: System, m: Moment)
    ensures Follows(sys, Next(cfg, sys, m.action, m.at), Actor(m.action))
  {
    hide Perform;
    if m.at >= sys.clock {
      PerformFollows(cfg, sys.(clock := m.at), m.action, m.at);
      hide Inherits, WasMinted;
      SameFollows(sys, sys.(clock := m.at), Perform(cfg, sys.(clock := m.at), m.action, m.at), Actor(m.action), sys.steps + 1);
    } else {
      NothingFollows(sys, Actor(m.action));
      SameFollows(sys, sys, sys, Actor(m.action), sys.steps + 1);
    }
  }

  lemma SameFollows(a: System, now: System, b: System, t: TaskId, steps: nat)
    requires Follows(now, b, t) && now == a.(clock := now.clock)
    ensures Follows(a, b.(steps := steps), t)
  {
    hide WasMinted;
    assert forall basis :: HeldBasis(now, basis) == HeldBasis(a, basis);
  }

  /** No code of the user that was claimed before the return is verified after it. */
  lemma VerifiedIsClaimedAfterwards(cfg: Config, users: map<UserId, User>, past: seq<Moment>, more: seq<Moment>, user: UserId, i: nat)
    requires EndsInReturn(cfg, users, past, user) && !LeavesInFlight(cfg, Run(cfg, users, past), user)
    requires i >= |Run(cfg, users, past).calls|
    ensures !VerifiesEarly(cfg, Run(cfg, users, past + more).calls, i, Run(cfg, users, past).calls, user)
  {
    hide Run, EndsInReturn, LeavesInFlight, Sound, MintedBy, AnswerTo, Usable, After;
    var now, later := Run(cfg, users, past), Run(cfg, users, past + more);
    RunStaysClosed(cfg, users, past, more, user);
    EveryRunIsSound(cfg, users, past + more);
    ReturnState(cfg, users, past, user);
    if VerifiesEarly(cfg, later.calls, i, now.calls, user) {
      VerifiedIsUsable(cfg, later.calls, i, user);
      assert later.calls[|now.calls| - 1].at == now.clock;
      UsableLater(After(cfg, later.calls[..i]).codes, later.calls[i].op.id, user, now.clock, later.calls[i].at);
    }
  }

  lemma UsableLater(codes: Codes, id: ChallengeId, user: UserId, since: real, at: real)
    requires Usable(codes, id, user, at) && since <= at
    ensures Usable(codes, id, user, since)
  {
  }

  /** The user whose check a request has passed is the one whose code or row it rests on. */
  lemma EarlyIsInFlight(cfg: Config, sys: System, calls: seq<Call>, early: seq<Call>, steps: nat, user: UserId, task: Task)
    requires sys.calls <= calls && Grounded(cfg, sys.calls, TaskItem(task)) && IsEarly(cfg, calls, early, steps, user, BasisOf(task))
    ensures InFlight(cfg, sys.calls, task, user, sys.clock)
  {
    hide AnswerTo, WasMinted;
    if BasisOf(task).OnCode? {
      ProofIsPast(cfg, sys.calls, TaskItem(task));
      AnswerStays(cfg, sys.calls, calls, BasisOf(task).proof);
    }
  }

  lemma ReturnIsClean(cfg: Config, users: map<UserId, User>, past: seq<Moment>, calls: seq<Call>, user: UserId)
    requires EndsInReturn(cfg, users, past, user) && !LeavesInFlight(cfg, Run(cfg, users, past), user)
    requires Run(cfg, users, past).calls <= calls
    ensures var now := Run(cfg, users, past); Clean(now, now.log, Early(cfg, calls, now.calls, |past|, user))
  {
    hide Run, EndsInReturn, AnswerTo, InFlight, Linear, WasMinted, SaneCalls, After;
    var now := Run(cfg, users, past);
    EveryRunIsSound(cfg, users, past);
    ReturnState(cfg, users, past, user);
    forall t | t in now.tasks ensures !IsEarly(cfg, calls, now.calls, |past|, user, BasisOf(now.tasks[t])) {
      assert At(now, InTask(t)) == Some(TaskItem(now.tasks[t]));
      if IsEarly(cfg, calls, now.calls, |past|, user, BasisOf(now.tasks[t])) {
        EarlyIsInFlight(cfg, now, calls, now.calls, |past|, user, now.tasks[t]);
      }
    }
    forall k | k in now.authorizations ensures !IsEarly(cfg, calls, now.calls, |past|, user, OnCode(now.authorizations[k].proof)) {
      assert At(now, InAuthorization(k)) == Some(AuthorizationItem(now.authorizations[k]));
      AnswerStays(cfg, now.calls, calls, now.authorizations[k].proof);
    }
  }

  lemma {:induction false} RunStaysClean(cfg: Config, users: map<UserId, User>, past: seq<Moment>, more: seq<Moment>, calls: seq<Call>, user: UserId)
    requires EndsInReturn(cfg, users, past, user) && !LeavesInFlight(cfg, Run(cfg, users, past), user)
    requires Run(cfg, users, past + more).calls <= calls
    requires forall i: nat :: i >= |Run(cfg, users, past).calls| ==> !VerifiesEarly(cfg, calls, i, Run(cfg, users, past).calls, user)
    ensures var now := Run(cfg, users, past); Clean(Run(cfg, users, past + more), now.log, Early(cfg, calls, now.calls, |past|, user))
  {
    hide Run, Perform, EndsInReturn, LeavesInFlight, Follows, Clean, VerifiesEarly;
    var now := Run(cfg, users, past);
    if more == [] {
      assert past + more == past;
      ReturnIsClean(cfg, users, past, calls, user);
    } else {
      var n, all := |more| - 1, past + more;
      assert all[..|past| + n] == past + more[..n] && all[..|past| + n + 1] == all;
      assert all[..|past|] == past && (past + more[..n])[..|past|] == past;
      RunAsks(cfg, users, all, |past| + n);
      RunAsks(cfg, users, past + more[..n], |past|);
      RunStaysClean(cfg, users, past, more[..n], calls, user);
      StepsTaken(cfg, users, past + more[..n]);
      RunNext(cfg, users, all, |past| + n);
      var before := Run(cfg, users, past + more[..n]);
      NextFollows(cfg, before, more[n]);
      StepStaysClean(before, Run(cfg, users, all), Actor(more[n].action), now.log, Early(cfg, calls, now.calls, |past|, user));
    }
  }

  /** Where nothing of the user's is left in flight, nothing of the user's ever rests on what
      there was at the return. */
  lemma NothingInFlightActs(cfg: Config, users: map<UserId, User>, past: seq<Moment>, more: seq<Moment>, user: UserId)
    requires EndsInReturn(cfg, users, past, user) && !LeavesInFlight(cfg, Run(cfg, users, past), user)
    ensures CutOff(cfg, users, past, more, user)
  {
    hide Run, EndsInReturn, LeavesInFlight, Clean, VerifiesEarly, Early;
    var now, later := Run(cfg, users, past), Run(cfg, users, past + more);
    forall i: nat | i >= |now.calls| ensures !VerifiesEarly(cfg, later.calls, i, now.calls, user) {
      VerifiedIsClaimedAfterwards(cfg, users, past, more, user, i);
    }
    RunStaysClean(cfg, users, past, more, later.calls, user);
  }

  // -- And back --------------------------------------------------------------------

  /** A request past its check rests on a code or a row of before the return. */
  lemma PastCheckIsEarly(cfg: Config, users: map<UserId, User>, past: seq<Moment>, user: UserId, t: TaskId)
    requires EndsInReturn(cfg, users, past, user)
    requires var now := Run(cfg, users, past); t in now.tasks && !now.tasks[t].Sending? && InFlight(cfg, now.calls, now.tasks[t], user, now.clock)
    ensures !CutOff(cfg, users, past, [], user)
  {
    hide Run, Returns, AnswerTo, Linear, WasMinted, SaneCalls, After, CleanLog, SessionEntitled;
    var now, before := Run(cfg, users, past), Run(cfg, users, past[..|past| - 1]);
    assert past + [] == past;
    EveryRunIsSound(cfg, users, past);
    ReturnState(cfg, users, past, user);
    assert now.tasks[t] == before.tasks[t];
    EveryRunRemembers(cfg, users, past[..|past| - 1]);
    assert Remembers(cfg, users, past[..|past| - 1], now.tasks[t]);
    assert At(now, InTask(t)) == Some(TaskItem(now.tasks[t]));
    if BasisOf(now.tasks[t]).OnCode? {
      ProofIsEarly(cfg, now.calls, BasisOf(now.tasks[t]).proof);
    }
    assert IsEarly(cfg, now.calls, now.calls, |past|, user, BasisOf(now.tasks[t]));
  }

  lemma ProofIsEarly(cfg: Config, calls: seq<Call>, i: nat)
    requires i < |calls| && AnswerTo(cfg, calls, i).Verified?
    ensures calls[i].op.Verify? && WasMinted(calls, calls[i].op.id)
  {
    hide AnswerTo;
    var claimed, committed := VerifiedOrigin(cfg, calls, i);
  }

  /** What is being sent is a code, and its challenge is judged by it. */
  lemma SentCode(cfg: Config, calls: seq<Call>, id: ChallengeId) returns (code: string)
    requires ProperCalls(cfg, calls) && id in After(cfg, calls).codes.pending && Texted(cfg, calls, id)
    ensures var c := After(cfg, calls).codes.pending[id]; c.channel != Totp && c.digest == Some(Mac(id, code))
  {
    hide After;
    var claimed := PendingOrigin(cfg, calls, id);
    assert ProperCall(cfg, calls[..claimed], calls[claimed].op);
    code := calls[claimed].op.code;
  }

  /** The send returns, and the code is entered. */
  function SentRun(t: TaskId, id: ChallengeId, purpose: Purpose, code: string, user: UserId, at: real): seq<Moment> {
    [Moment(SendReturned(t, true), at), Moment(CodeEntered(t, purpose, id, code, user), at)]
  }

  /** A claim that is still being sent becomes live after the return, and its code is proof. */
  lemma SentIsProven(cfg: Config, users: map<UserId, User>, past: seq<Moment>, t: TaskId, code: string)
    requires var now := Run(cfg, users, past);
      && t in now.tasks && now.tasks[t].Sending? && now.tasks[t].supersedes.None?
      && var id, pending := now.tasks[t].id, After(cfg, now.calls).codes.pending;
        id in pending && pending[id].expiresAt > now.clock && pending[id].channel != Totp && pending[id].digest == Some(Mac(id, code))
        && pending[id].user == now.tasks[t].user && pending[id].purpose == now.tasks[t].purpose
    ensures
      var now := Run(cfg, users, past);
      var Sending(id, user, purpose, _) := now.tasks[t];
      var later := Run(cfg, users, past + SentRun(t, id, purpose, code, user, now.clock));
      && t in later.tasks && later.tasks[t].Proven? && later.tasks[t].c == After(cfg, now.calls).codes.pending[id]
      && later.tasks[t].proof < |later.calls| && later.calls[later.tasks[t].proof].op.Verify?
      && later.calls[later.tasks[t].proof].op.id == id && later.clock == now.clock
  {
    hide Run, After, Sound, MintedBy, Next;
    var now := Run(cfg, users, past);
    var Sending(id, user, purpose, _) := now.tasks[t];
    var c := After(cfg, now.calls).codes.pending[id];
    var actions := past + SentRun(t, id, purpose, code, user, now.clock);
    var n := |past|;
    assert actions[..n] == past && actions[..n + 2] == actions;
    EveryRunIsSound(cfg, users, past);
    RunNext(cfg, users, actions, n);
    RunNext(cfg, users, actions, n + 1);
    SendIsProven(cfg, now, t, c, code);
  }

  lemma SendIsProven(cfg: Config, sys: System, t: TaskId, c: Challenge, code: string)
    requires t in sys.tasks && sys.tasks[t].Sending? && sys.tasks[t].supersedes.None? && sys.clock >= 0.0
    requires var id, pending := sys.tasks[t].id, After(cfg, sys.calls).codes.pending; id in pending && pending[id] == c
    requires c.expiresAt > sys.clock && c.channel != Totp && c.digest == Some(Mac(sys.tasks[t].id, code)) && c.purpose == sys.tasks[t].purpose
    ensures
      var id, at := sys.tasks[t].id, sys.clock;
      var b := Next(cfg, Next(cfg, sys, SendReturned(t, true), at), CodeEntered(t, c.purpose, id, code, c.user), at);
      && t in b.tasks && b.tasks[t].Proven? && b.tasks[t].c == c && b.clock == at
      && b.tasks[t].proof < |b.calls| && b.calls[b.tasks[t].proof].op.Verify? && b.calls[b.tasks[t].proof].op.id == id
  {
    hide AskSwitch, PassSwitch, SaveContact, SaveEnrol, FindRecovery, AskContact, LoadFirstFactor, PassFirstFactor;
    hide AskRecovery, AskEnrol, AskDisable, SaveDisable, RefreshDisable, AskReset, LoadReset, SavePassword, RefreshPassword;
    hide ChangeRow, AskChange, SaveChange, AskPreference, SavePreference, SaveSession, EnterCode, LoadOwner, UseProof;
    hide After, Outstanding, Install;
    var id, at := sys.tasks[t].id, sys.clock;
    InstallSucceeds(cfg, sys, t, id, c, None, at);
    var sent := Next(cfg, sys, SendReturned(t, true), at);
    CodeIsProven(cfg, sent, t, id, c, code, Wrong, at, at);
    EnterKeepsClock(cfg, sent, t, c.purpose, id, code, c.user, at);
  }

  lemma ClaimedIsEarly(cfg: Config, users: map<UserId, User>, past: seq<Moment>, user: UserId, t: TaskId) returns (more: seq<Moment>)
    requires var now := Run(cfg, users, past); t in now.tasks && now.tasks[t].Sending? && InFlight(cfg, now.calls, now.tasks[t], user, now.clock)
    ensures !CutOff(cfg, users, past, more, user)
  {
    hide Run, AnswerTo, Linear, WasMinted, SaneCalls, After, CleanLog, NeverLive, Supersedes, SentRun;
    var now := Run(cfg, users, past);
    var Sending(id, _, purpose, _) := now.tasks[t];
    EveryRunIsOrderly(cfg, users, past);
    assert InOrder(cfg, now.calls, now.tasks[t]);
    var code := SentCode(cfg, now.calls, id);
    more := SentRun(t, id, purpose, code, user, now.clock);
    SentIsProven(cfg, users, past, t, code);
    var later := Run(cfg, users, past + more);
    EveryRunIsSound(cfg, users, past + more);
    assert At(later, InTask(t)) == Some(TaskItem(later.tasks[t]));
    assert IsEarly(cfg, later.calls, now.calls, |past|, user, BasisOf(later.tasks[t]));
  }

  /** What a completed reset promises of what was in flight, exactly: from its return on,
      whatever happens, no request, authorization, session, password or contact of the user's
      rests on a code claimed before the return, and no request, session or password of the
      user's on a row read before it, if and only if no request of the user's is past its
      check at the return and no unexpired claim of the user's, other than a switch's, has
      its send awaited. */
  lemma ResetCutsOffIff(cfg: Config, users: map<UserId, User>, past: seq<Moment>, user: UserId)
    requires EndsInReturn(cfg, users, past, user)
    ensures (forall more :: CutOff(cfg, users, past, more, user)) <==> !LeavesInFlight(cfg, Run(cfg, users, past), user)
  {
    hide Run, EndsInReturn, CutOff, InFlight;
    var now := Run(cfg, users, past);
    if LeavesInFlight(cfg, now, user) {
      var t :| t in now.tasks && InFlight(cfg, now.calls, now.tasks[t], user, now.clock);
      if now.tasks[t].Sending? {
        var more := ClaimedIsEarly(cfg, users, past, user, t);
      } else {
        PastCheckIsEarly(cfg, users, past, user, t);
      }
    } else {
      forall more ensures CutOff(cfg, users, past, more, user) {
        NothingInFlightActs(cfg, users, past, more, user);
      }
    }
  }
}
