/** What the remaining flows come to, from any moment of any run: turning two-step
    verification off, enrolling an authenticator, changing the password or the default method,
    a send that fails, an account that is suspended
    (two_factor_service.py, auth_service.py, user_service.py). */
module AccountsEffects {
  import opened Wrappers
  import opened Otp
  import opened OtpLifecycle
  import opened Accounts
  import opened AccountsProofs
  import opened AccountsOrder
  import opened AccountsSettings
  import opened AccountsSignIn
  import OtpWaits

  // -- Turning two-step verification off -------------------------------------------

  function DisableRun(t: TaskId, user: UserId, at: real): seq<Moment> {
    [Moment(DisableAsked(t, user), at), Moment(DisableSaved(t), at), Moment(DisableRefreshed(t), at)]
  }

  /** Nothing of the user's is left to be guessed at. */
  predicate CleanSlate(s: State, user: UserId) {
    && (forall id :: id in s.codes.live ==> s.codes.live[id].user != user)
    && user !in s.guard.failures && user !in s.guard.locks
  }

  lemma InvalidateCleans(cfg: Config, calls: seq<Call>, user: UserId, at: real)
    ensures CleanSlate(After(cfg, calls + [Call(Invalidate(user), at)]), user)
  {
    AfterOne(cfg, calls, Call(Invalidate(user), at));
    hide After;
  }

  /** A save that has loaded the row turns it off if it was on then, and leaves it as it is if
      it was off: a confirmation in between is not undone. */
  lemma DisableIsSaved(cfg: Config, sys: System, t: TaskId)
    requires Waits(sys, t) && sys.tasks[t].Disabling? && sys.tasks[t].user in sys.users
    ensures
      var Disabling(user, wasEnabled) := sys.tasks[t];
      var row := sys.users[user];
      Next(cfg, sys, DisableSaved(t), sys.clock)
      == sys.(users := sys.users[user := row.(enabled := row.enabled && !wasEnabled)], tasks := sys.tasks[t := Disabled(user)], steps := sys.steps + 1)
  {
    hide AskSwitch, PassSwitch, SaveContact, SaveEnrol, FindRecovery, AskContact, PassFirstFactor, ReturnSend, LoadFirstFactor;
    hide AskRecovery, AskEnrol, AskDisable, RefreshDisable, AskReset, LoadReset, SavePassword, RefreshPassword, SaveSession;
    hide ChangeRow, AskChange, SaveChange, AskPreference, SavePreference, EnterCode, LoadOwner, UseProof;
  }

  lemma DisableSteps(cfg: Config, sys: System, t: TaskId, user: UserId, at: real)
    requires Idle(sys, t) && user in sys.users && at >= sys.clock
    ensures
      var b := Next(cfg, Next(cfg, Next(cfg, sys, DisableAsked(t, user), at), DisableSaved(t), at), DisableRefreshed(t), at);
      && b == sys.(calls := sys.calls + [Call(Invalidate(user), at)], clock := at, steps := sys.steps + 3,
                   users := sys.users[user := sys.users[user].(enabled := false)])
      && CleanSlate(After(cfg, b.calls), user)
  {
    hide AskSwitch, PassSwitch, SaveContact, SaveEnrol, FindRecovery, AskContact, PassFirstFactor, ReturnSend, LoadFirstFactor;
    hide AskRecovery, AskEnrol, AskReset, LoadReset, SavePassword, RefreshPassword, SaveSession, After;
    hide ChangeRow, AskChange, SaveChange, AskPreference, SavePreference, EnterCode, LoadOwner, UseProof, SaveDisable;
    var asked := Next(cfg, sys, DisableAsked(t, user), at);
    DisableIsSaved(cfg, asked, t);
    var saved := Next(cfg, asked, DisableSaved(t), at);
    assert saved.tasks - {t} == sys.tasks;
    InvalidateCleans(cfg, sys.calls, user, at);
  }

  /** Turning two-step verification off works: from any moment of any run its three steps leave
      the user's row as it was but for two-step verification being off, no live code of the
      user, no failures counted and no lock, and every other request as it was. */
  lemma DisableTurnsOff(cfg: Config, users: map<UserId, User>, past: seq<Moment>, t: TaskId, user: UserId, at: real)
    requires var sys := Run(cfg, users, past); Idle(sys, t) && user in sys.users && at >= sys.clock
    ensures
      var a, b := Run(cfg, users, past), Run(cfg, users, past + DisableRun(t, user, at));
      && b.users == a.users[user := a.users[user].(enabled := false)] && CleanSlate(After(cfg, b.calls), user)
      && b.tasks == a.tasks && b.log == a.log && b.authorizations == a.authorizations && b.clock == at
      && MintsOnly(a.calls, b.calls, Invalidate(user))
  {
    hide Next, Run, After;
    var actions, n := past + DisableRun(t, user, at), |past|;
    assert actions[..n] == past && actions[..n + 3] == actions;
    DisableSteps(cfg, Run(cfg, users, past), t, user, at);
    RunNext(cfg, users, actions, n);
    RunNext(cfg, users, actions, n + 1);
    RunNext(cfg, users, actions, n + 2);
  }

  // -- Signing in without a code ---------------------------------------------------

  function PlainRun(t: TaskId, user: UserId, send: SendInput, at: real): seq<Moment> {
    [Moment(FirstFactorLoaded(t, user), at), Moment(FirstFactorPassed(t, send), at), Moment(SessionSaved(t), at)]
  }

  lemma PlainSteps(cfg: Config, sys: System, t: TaskId, user: UserId, send: SendInput, at: real)
    requires Idle(sys, t) && user in sys.users && at >= sys.clock && NewId(sys, send.id) && !sys.users[user].enabled
    ensures
      var b := Next(cfg, Next(cfg, Next(cfg, sys, FirstFactorLoaded(t, user), at), FirstFactorPassed(t, send), at), SessionSaved(t), at);
      && b.calls == sys.calls && b.users == sys.users && b.tasks == sys.tasks && b.clock == at
      && b.log.sessions == sys.log.sessions + if sys.users[user].active then [Session(user, sys.steps, None, sys.steps + 2)] else []
  {
    hide AskSwitch, PassSwitch, SaveContact, SaveEnrol, FindRecovery, AskContact, ReturnSend, StartLogin, WasMinted;
    hide AskRecovery, AskEnrol, AskDisable, SaveDisable, RefreshDisable, AskReset, LoadReset, SavePassword, RefreshPassword;
    hide ChangeRow, AskChange, SaveChange, AskPreference, SavePreference, EnterCode, LoadOwner, UseProof;
    var loaded := Next(cfg, sys, FirstFactorLoaded(t, user), at);
    assert loaded.tasks - {t} == sys.tasks;
  }

  /** Without two-step verification the first factor is enough: from any moment of any run, an
      account that has it off gets a session without a code if and only if it is active. */
  lemma PlainSignIn(cfg: Config, users: map<UserId, User>, past: seq<Moment>, t: TaskId, user: UserId, send: SendInput, at: real)
    requires var sys := Run(cfg, users, past);
      Idle(sys, t) && user in sys.users && at >= sys.clock && NewId(sys, send.id) && !sys.users[user].enabled
    ensures
      var a, b := Run(cfg, users, past), Run(cfg, users, past + PlainRun(t, user, send, at));
      && b.calls == a.calls && b.users == a.users && b.tasks == a.tasks
      && b.log.sessions == a.log.sessions + if a.users[user].active then [Session(user, |past|, None, |past| + 2)] else []
  {
    hide Next, Run, WasMinted;
    var actions, n := past + PlainRun(t, user, send, at), |past|;
    assert actions[..n] == past && actions[..n + 3] == actions;
    StepsTaken(cfg, users, past);
    PlainSteps(cfg, Run(cfg, users, past), t, user, send, at);
    RunNext(cfg, users, actions, n);
    RunNext(cfg, users, actions, n + 1);
    RunNext(cfg, users, actions, n + 2);
  }

  /** So once an active account has turned it off, its next sign-in gets a session without a
      code. */
  lemma DisabledNeedsNoCode(cfg: Config, users: map<UserId, User>, past: seq<Moment>, t: TaskId, user: UserId, send: SendInput, at: real)
    requires var sys := Run(cfg, users, past);
      Idle(sys, t) && user in sys.users && sys.users[user].active && at >= sys.clock && NewId(sys, send.id)
    ensures
      var before, sessions := Run(cfg, users, past).log.sessions, Run(cfg, users, past + DisableRun(t, user, at) + PlainRun(t, user, send, at)).log.sessions;
      sessions == before + [Session(user, |past| + 3, None, |past| + 5)]
  {
    hide Run, WasMinted, CleanSlate;
    var disabled := past + DisableRun(t, user, at);
    DisableTurnsOff(cfg, users, past, t, user, at);
    StillNew(Run(cfg, users, past), Run(cfg, users, disabled), Invalidate(user), send.id);
    PlainSignIn(cfg, users, disabled, t, user, send, at);
  }

  lemma StillNew(a: System, b: System, op: Operation, id: ChallengeId)
    requires !Mints(op) && MintsOnly(a.calls, b.calls, op) && NewId(a, id)
    ensures NewId(b, id)
  {
  }

  // -- Changing the password and the default method --------------------------------

  function ChangeRun(t: TaskId, user: UserId, given: string, password: string, at: real): seq<Moment> {
    [Moment(ChangeAsked(t, user, given, password), at), Moment(ChangeSaved(t), at)]
  }

  lemma ChangeSteps(cfg: Config, sys: System, t: TaskId, user: UserId, given: string, password: string, at: real)
    requires Idle(sys, t) && user in sys.users && at >= sys.clock
    ensures
      var row := sys.users[user];
      var b := Next(cfg, Next(cfg, sys, ChangeAsked(t, user, given, password), at), ChangeSaved(t), at);
      var right := row.password.None? || row.password == Some(given);
      && b.users == sys.users[user := if right then row.(password := Some(password)) else row]
      && b.tasks == sys.tasks && b.calls == sys.calls && b.log.sessions == sys.log.sessions && b.log.passwords == sys.log.passwords
  {
    hide AskSwitch, PassSwitch, SaveContact, SaveEnrol, FindRecovery, AskContact, PassFirstFactor, ReturnSend, LoadFirstFactor;
    hide AskRecovery, AskEnrol, AskDisable, SaveDisable, RefreshDisable, AskReset, LoadReset, SavePassword, RefreshPassword;
    hide ChangeRow, AskPreference, SavePreference, EnterCode, LoadOwner, UseProof, SaveSession;
    var asked := Next(cfg, sys, ChangeAsked(t, user, given, password), at);
    assert asked.tasks - {t} == sys.tasks;
    assert sys.users[user := sys.users[user]] == sys.users;
  }

  /** An owner's change takes effect if and only if the password given is the one held, or none
      is held. */
  lemma ChangeSetsPassword(cfg: Config, users: map<UserId, User>, past: seq<Moment>, t: TaskId, user: UserId, given: string,
                           password: string, at: real)
    requires var sys := Run(cfg, users, past); Idle(sys, t) && user in sys.users && at >= sys.clock
    ensures
      var a, b := Run(cfg, users, past), Run(cfg, users, past + ChangeRun(t, user, given, password, at));
      var held := a.users[user].password;
      && b.users == (if held.None? || held.value == given then a.users[user := a.users[user].(password := Some(password))] else a.users)
      && b.tasks == a.tasks && b.calls == a.calls && b.log.sessions == a.log.sessions && b.log.passwords == a.log.passwords
  {
    hide Next, Run;
    var actions, n := past + ChangeRun(t, user, given, password, at), |past|;
    assert actions[..n] == past && actions[..n + 2] == actions;
    var sys := Run(cfg, users, past);
    ChangeSteps(cfg, sys, t, user, given, password, at);
    RunNext(cfg, users, actions, n);
    RunNext(cfg, users, actions, n + 1);
    assert sys.users[user := sys.users[user]] == sys.users;
  }

  function PreferenceRun(t: TaskId, user: UserId, channel: Channel, at: real): seq<Moment> {
    [Moment(PreferenceAsked(t, user, channel), at), Moment(PreferenceSaved(t), at)]
  }

  lemma PreferenceSteps(cfg: Config, sys: System, t: TaskId, user: UserId, channel: Channel, at: real)
    requires Idle(sys, t) && user in sys.users && at >= sys.clock
    ensures
      var row := sys.users[user];
      var b := Next(cfg, Next(cfg, sys, PreferenceAsked(t, user, channel), at), PreferenceSaved(t), at);
      var usable := if channel == Email then row.email.Some? else row.mobile.Some?;
      && b.users == sys.users[user := if usable then row.(preference := Known(channel)) else row]
      && b.tasks == sys.tasks && b.calls == sys.calls && b.log == sys.log
  {
    hide AskSwitch, PassSwitch, SaveContact, SaveEnrol, FindRecovery, AskContact, PassFirstFactor, ReturnSend, LoadFirstFactor;
    hide AskRecovery, AskEnrol, AskDisable, SaveDisable, RefreshDisable, AskReset, LoadReset, SavePassword, RefreshPassword;
    hide ChangeRow, AskChange, SaveChange, EnterCode, LoadOwner, UseProof, SaveSession;
    var asked := Next(cfg, sys, PreferenceAsked(t, user, channel), at);
    assert asked.tasks - {t} == sys.tasks;
    assert sys.users[user := sys.users[user]] == sys.users;
  }

  /** A default method is saved if and only if the account has an e-mail address, for e-mail, or
      a mobile number, for any other. */
  lemma PreferenceIsSaved(cfg: Config, users: map<UserId, User>, past: seq<Moment>, t: TaskId, user: UserId, channel: Channel, at: real)
    requires var sys := Run(cfg, users, past); Idle(sys, t) && user in sys.users && at >= sys.clock
    ensures
      var a, b := Run(cfg, users, past), Run(cfg, users, past + PreferenceRun(t, user, channel, at));
      var row := a.users[user];
      && (if (if channel == Email then row.email.Some? else row.mobile.Some?)
          then b.users == a.users[user := row.(preference := Known(channel))] else b.users == a.users)
      && b.tasks == a.tasks && b.calls == a.calls && b.log == a.log
  {
    hide Next, Run;
    var actions, n := past + PreferenceRun(t, user, channel, at), |past|;
    assert actions[..n] == past && actions[..n + 2] == actions;
    var sys := Run(cfg, users, past);
    PreferenceSteps(cfg, sys, t, user, channel, at);
    RunNext(cfg, users, actions, n);
    RunNext(cfg, users, actions, n + 1);
    assert sys.users[user := sys.users[user]] == sys.users;
  }

  // -- Suspending an account -------------------------------------------------------

  /** An administrator's change of status decides the next sign-in of an account without
      two-step verification, and nothing else of the account. */
  lemma StatusDecides(cfg: Config, users: map<UserId, User>, past: seq<Moment>, t: TaskId, user: UserId, active: bool, send: SendInput, at: real)
    requires var sys := Run(cfg, users, past);
      Idle(sys, t) && user in sys.users && at >= sys.clock && NewId(sys, send.id) && !sys.users[user].enabled
    ensures
      var a := Run(cfg, users, past);
      var b := Run(cfg, users, past + [Moment(StatusChanged(user, active), at)] + PlainRun(t, user, send, at));
      && b.users == a.users[user := a.users[user].(active := active)]
      && b.log.sessions == a.log.sessions + if active then [Session(user, |past| + 1, None, |past| + 3)] else []
  {
    hide Next, Run, WasMinted, PlainRun;
    var changed := past + [Moment(StatusChanged(user, active), at)];
    assert changed[..|past|] == past && changed[..|past| + 1] == changed;
    RunNext(cfg, users, changed, |past|);
    StatusStep(cfg, Run(cfg, users, past), user, active, at);
    PlainSignIn(cfg, users, changed, t, user, send, at);
  }

  lemma StatusStep(cfg: Config, sys: System, user: UserId, active: bool, at: real)
    requires user in sys.users && at >= sys.clock
    ensures Next(cfg, sys, StatusChanged(user, active), at)
      == sys.(users := sys.users[user := sys.users[user].(active := active)], clock := at, steps := sys.steps + 1)
  {
  }

  // -- Failed sends ----------------------------------------------------------------

  lemma DiscardGivesBack(cfg: Config, calls: seq<Call>, id: ChallengeId, at: real)
    requires var codes := After(cfg, calls).codes; id in codes.pending && id !in codes.live
    ensures
      var c, before, after := After(cfg, calls).codes.pending[id], After(cfg, calls), After(cfg, calls + [Call(Discard(id, After(cfg, calls).codes.pending[id].user), at)]);
      && after.codes == Codes(before.codes.live, before.codes.pending - {id})
      && after.limits == before.limits.(lastSend := before.limits.lastSend - {(GroupOf(c.purpose), c.user, c.channel)})
  {
    AfterOne(cfg, calls, Call(Discard(id, After(cfg, calls).codes.pending[id].user), at));
    hide After;
    assert id !in After(cfg, calls).codes.live ==> After(cfg, calls).codes.live - {id} == After(cfg, calls).codes.live;
  }

  /** A send that fails is undone: from any moment of any run at which one is awaited, the
      request is over, its code is gone and was never live, the cooldown it had started is given
      back, and nothing else has changed; the counted sends stay counted. */
  lemma FailedSendIsUndone(cfg: Config, users: map<UserId, User>, past: seq<Moment>, t: TaskId, at: real)
    requires var sys := Run(cfg, users, past);
      at >= sys.clock && Waits(sys, t) && sys.tasks[t].Sending? && sys.tasks[t].id in After(cfg, sys.calls).codes.pending
    ensures
      var a, b := Run(cfg, users, past), Run(cfg, users, past + [Moment(SendReturned(t, false), at)]);
      var s, s', id := After(cfg, a.calls), After(cfg, b.calls), a.tasks[t].id;
      var c := s.codes.pending[id];
      && b == a.(calls := b.calls, tasks := a.tasks - {t}, clock := at, steps := a.steps + 1)
      && c.user == a.tasks[t].user && c.purpose == a.tasks[t].purpose
      && s'.codes == Codes(s.codes.live, s.codes.pending - {id}) && s'.guard == s.guard
      && s'.limits == s.limits.(lastSend := s.limits.lastSend - {(if c.purpose == PasswordReset then RecoveryGroup else SignInGroup, c.user, c.channel)})
  {
    var actions, n := past + [Moment(SendReturned(t, false), at)], |past|;
    assert actions[..n] == past && actions[..n + 1] == actions;
    RunNext(cfg, users, actions, n);
    hide Run, After, NeverLive, Supersedes, Texted, ProperCalls, Dead, WasMinted;
    var sys := Run(cfg, users, past);
    EveryRunIsOrderly(cfg, users, past);
    assert InOrder(cfg, sys.calls, sys.tasks[t]);
    hide InOrder, Orderly;
    FailedStep(cfg, sys, t, at);
    DiscardGivesBack(cfg, sys.calls, sys.tasks[t].id, at);
    GuardIsKept(cfg, sys.calls, sys.tasks[t].id, sys.tasks[t].user, at);
  }

  /** A request that is abandoned there leaves its code pending and its cooldown running: nobody
      asks the code store anything, and the send can never be reported again. */
  lemma AbandonedSendIsKept(cfg: Config, sys: System, t: TaskId, ok: bool, at: real, later: real)
    requires sys.clock <= at <= later && Waits(sys, t)
    ensures
      var b := Next(cfg, Next(cfg, sys, Abandoned(t), at), SendReturned(t, ok), later);
      b == sys.(tasks := sys.tasks - {t}, clock := later, steps := sys.steps + 2)
  {
    hide Install;
  }

  /** So the retry runs into no cooldown: where none is running, no claim is refused by one. */
  lemma RetryIsNotCooling(cfg: Config, s: State, op: Operation, at: real)
    requires op.Claim? && ((if op.purpose == PasswordReset then RecoveryGroup else SignInGroup), op.user, op.channel) !in s.limits.lastSend
    ensures var answer := Step(cfg, s, op, at).answer; !(answer.Refused? && answer.limit == Cooldown)
  {
    hide Step;
    var answer := Step(cfg, s, op, at).answer;
    if answer.Refused? && answer.limit == Cooldown {
      OtpWaits.CooldownAnswer(cfg, s, op, at);
      assert false;
    }
  }

  lemma FailedStep(cfg: Config, sys: System, t: TaskId, at: real)
    requires at >= sys.clock && Waits(sys, t) && sys.tasks[t].Sending?
    ensures Next(cfg, sys, SendReturned(t, false), at)
      == sys.(calls := sys.calls + [Call(Discard(sys.tasks[t].id, sys.tasks[t].user), at)], tasks := sys.tasks - {t}, clock := at, steps := sys.steps + 1)
  {
    hide Install;
  }

  lemma GuardIsKept(cfg: Config, calls: seq<Call>, id: ChallengeId, user: UserId, at: real)
    ensures After(cfg, calls + [Call(Discard(id, user), at)]).guard == After(cfg, calls).guard
  {
    AfterOne(cfg, calls, Call(Discard(id, user), at));
    hide After, Find;
  }

  // -- Enrolling an authenticator --------------------------------------------------

  function EnrolRun(t: TaskId, user: UserId, secret: string, id: ChallengeId, ttl: nat, at: real, later: real): seq<Moment> {
    [Moment(EnrolAsked(t, user, secret), at), Moment(EnrolSaved(t, id, ttl), at),
     Moment(CodeEntered(t, VerifyContact, id, "", user), later), Moment(OwnerLoaded(t, Right), later),
     Moment(ProvenLoaded(t, 0), later), Moment(ContactSaved(t), later)]
  }

  /** The row once the authenticator has been confirmed: it is the default method if
      two-step verification was off. */
  function Enrolled(row: User, secret: string): User {
    row.(secret := Some(secret), enabled := true, preference := if row.enabled then row.preference else Known(Totp))
  }

  /** What an enrolment needs: a free slot and no lock; its contacts are the account's own. */
  predicate MayEnrol(cfg: Config, sys: System, t: TaskId, user: UserId, id: ChallengeId, at: real) {
    && Idle(sys, t) && NewId(sys, id) && at >= sys.clock && user in sys.users
    && LockRefusal(Prune(cfg, After(cfg, sys.calls), at).guard, user, at).None?
    && !Taken(sys.users, user, sys.users[user])
  }

  lemma EnrolBegins(cfg: Config, sys: System, t: TaskId, user: UserId, secret: string, at: real)
    requires Idle(sys, t) && user in sys.users && at >= sys.clock
    ensures Next(cfg, sys, EnrolAsked(t, user, secret), at) == Begin(sys, t, Enrolling(user, secret)).(clock := at, steps := sys.steps + 1)
  {
  }

  lemma EnrolSaves(cfg: Config, sys: System, t: TaskId, user: UserId, secret: string, id: ChallengeId, ttl: nat)
    requires Waits(sys, t) && sys.tasks[t] == Enrolling(user, secret) && user in sys.users && NewId(sys, id)
    ensures
      var stored := sys.(users := sys.users[user := sys.users[user].(secret := Some(secret))]);
      Next(cfg, sys, EnrolSaved(t, id, ttl), sys.clock)
      == StartTotp(cfg, stored, t, ClaimTotp(id, user, VerifyContact, Some(ttl), false), None, sys.clock).(steps := sys.steps + 1)
  {
    hide StartTotp, WasMinted;
    StartKeepsSteps(cfg, sys.(users := sys.users[user := sys.users[user].(secret := Some(secret))]), t,
                    ClaimTotp(id, user, VerifyContact, Some(ttl), false), sys.clock);
  }

  lemma StartKeepsSteps(cfg: Config, sys: System, t: TaskId, op: Operation, at: real)
    requires op.ClaimTotp?
    ensures StartTotp(cfg, sys, t, op, None, at).steps == sys.steps
  {
    hide Answered;
  }

  lemma EnrolIsOut(cfg: Config, sys: System, t: TaskId, user: UserId, secret: string, id: ChallengeId, ttl: nat, at: real)
    requires MayEnrol(cfg, sys, t, user, id, at) && at >= 0.0
    ensures
      var op := ClaimTotp(id, user, VerifyContact, Some(ttl), false);
      var b := Next(cfg, Next(cfg, sys, EnrolAsked(t, user, secret), at), EnrolSaved(t, id, ttl), at);
      && b == sys.(calls := b.calls, clock := at, steps := sys.steps + 2, users := sys.users[user := sys.users[user].(secret := Some(secret))])
      && Outstanding(cfg, After(cfg, b.calls), id, Minted(cfg, op, at), at)
  {
    hide Next, Minted, StartTotp, After, WasMinted, Taken, Prune, LockRefusal, Outstanding, Claimable;
    var op := ClaimTotp(id, user, VerifyContact, Some(ttl), false);
    EnrolBegins(cfg, sys, t, user, secret, at);
    var asked := Next(cfg, sys, EnrolAsked(t, user, secret), at);
    EnrolSaves(cfg, asked, t, user, secret, id, ttl);
    EnrolIsClaimable(cfg, After(cfg, sys.calls), op, at);
    var stored := asked.(users := asked.users[user := asked.users[user].(secret := Some(secret))]);
    EnrolIsStarted(cfg, stored, t, op, at);
    assert stored.tasks - {t} == sys.tasks;
  }

  lemma EnrolIsClaimable(cfg: Config, s: State, op: Operation, at: real)
    requires op.ClaimTotp? && !op.throttled && LockRefusal(Prune(cfg, s, at).guard, op.user, at).None?
    ensures Claimable(cfg, s, op, at)
  {
    hide Prune, LockRefusal;
  }

  lemma EnrolIsStarted(cfg: Config, sys: System, t: TaskId, op: Operation, at: real)
    requires op.ClaimTotp? && Claimable(cfg, After(cfg, sys.calls), op, at) && at >= 0.0
    ensures
      var b := StartTotp(cfg, sys, t, op, None, at);
      b == End(sys, t).(calls := b.calls) && Outstanding(cfg, After(cfg, b.calls), op.id, Minted(cfg, op, at), at)
  {
    hide Step, Claimable, Outstanding, Install;
    AfterOne(cfg, sys.calls, Call(op, at));
    ClaimMints(cfg, After(cfg, sys.calls), op, at);
    assert at < Minted(cfg, op, at).expiresAt && Minted(cfg, op, at).purpose == op.purpose && Minted(cfg, op, at).user == op.user;
    hide After, Minted;
    InstallSucceeds(cfg, Asked(sys, op, at), t, op.id, Minted(cfg, op, at), None, at);
    assert End(Asked(sys, op, at), t).tasks == End(sys, t).tasks;
  }

  lemma EnrolIsUsed(cfg: Config, sys: System, t: TaskId, user: UserId, at: real)
    requires Waits(sys, t) && sys.tasks[t].Proven? && sys.tasks[t].c.purpose == VerifyContact && sys.tasks[t].c.channel == Totp
    requires sys.tasks[t].c.user == user && sys.clock == at && user in sys.users && sys.tasks[t].c.destination.None?
    requires sys.tasks[t].seen.Some? ==> sys.tasks[t].seen == Some(sys.users[user])
    requires !Taken(sys.users, user, sys.users[user])
    ensures
      var row := sys.users[user];
      var b := Next(cfg, Next(cfg, sys, ProvenLoaded(t, 0), at), ContactSaved(t), at);
      && b == sys.(tasks := sys.tasks - {t}, steps := sys.steps + 2,
                   users := sys.users[user := row.(enabled := true, preference := if row.enabled then row.preference else Known(Totp))])
  {
    hide AskSwitch, PassSwitch, SaveEnrol, FindRecovery, AskContact, PassFirstFactor, ReturnSend, LoadFirstFactor, SaveSession;
    hide AskRecovery, AskEnrol, AskDisable, SaveDisable, RefreshDisable, AskReset, LoadReset, SavePassword, RefreshPassword;
    hide ChangeRow, AskChange, SaveChange, AskPreference, SavePreference, EnterCode, LoadOwner;
    var row := sys.users[user];
    var confirming := Confirming(user, sys.tasks[t].proof, Totp, None, row);
    assert sys.tasks[t := confirming] - {t} == sys.tasks - {t};
    SameTaken(sys.users, user, row, ConfirmedRow(row, row, Totp, None));
  }

  lemma SameTaken(users: map<UserId, User>, user: UserId, row: User, other: User)
    requires row.email == other.email && row.mobile == other.mobile
    ensures Taken(users, user, row) == Taken(users, user, other)
  {
  }

  lemma TakenWithSecret(users: map<UserId, User>, user: UserId, secret: string)
    requires user in users && !Taken(users, user, users[user])
    ensures var row := users[user].(secret := Some(secret)); !Taken(users[user := row], user, row)
  {
  }

  lemma EnrolMints(cfg: Config, user: UserId, id: ChallengeId, ttl: nat, at: real)
    ensures var c := Minted(cfg, ClaimTotp(id, user, VerifyContact, Some(ttl), false), at);
      && c.user == user && c.purpose == VerifyContact && c.channel == Totp && c.destination.None?
      && c.expiresAt == at + (if ttl > 0 then ttl else cfg.codeTtl) as real
  {
  }

  lemma EnrolIsProven(cfg: Config, users: map<UserId, User>, past: seq<Moment>, actions: seq<Moment>, t: TaskId, user: UserId,
                      secret: string, id: ChallengeId, ttl: nat, at: real, later: real)
    requires MayEnrol(cfg, Run(cfg, users, past), t, user, id, at)
    requires at <= later < at + (if ttl > 0 then ttl else cfg.codeTtl) as real
    requires actions == past + EnrolRun(t, user, secret, id, ttl, at, later)
    ensures
      var a, stored, b := Run(cfg, users, past), Run(cfg, users, actions[..|past| + 2]), Run(cfg, users, actions[..|past| + 4]);
      && stored.users == a.users[user := a.users[user].(secret := Some(secret))]
      && Waits(b, t) && b.tasks[t].Proven? && b.tasks[t].c.user == user && b.tasks[t].c.purpose == VerifyContact
      && b.tasks[t].c.channel == Totp && b.tasks[t].c.destination.None?
      && (b.tasks[t].seen.Some? ==> b.tasks[t].seen == Some(stored.users[user]))
      && b == a.(calls := b.calls, clock := later, tasks := a.tasks[t := b.tasks[t]], steps := a.steps + 4, users := stored.users)
  {
    hide Next, Run, After, Outstanding, WasMinted, Minted, Taken, Prune, LockRefusal, Sound, MintedBy, RightFor, MintsOnly;
    var sys, n := Run(cfg, users, past), |past|;
    assert actions[..n] == past;
    EveryRunIsSound(cfg, users, past);
    EnrolIsOut(cfg, sys, t, user, secret, id, ttl, at);
    RunNext(cfg, users, actions, n);
    RunNext(cfg, users, actions, n + 1);
    EnrolMints(cfg, user, id, ttl, at);
    var c := Minted(cfg, ClaimTotp(id, user, VerifyContact, Some(ttl), false), at);
    AuthenticatorIsRight(c, id);
    CodeStepsProve(cfg, Run(cfg, users, actions[..n + 2]), t, id, c, "", at, later);
    RunNext(cfg, users, actions, n + 2);
    RunNext(cfg, users, actions, n + 3);
  }

  /** Enrolling works: from any moment of any run at which the user is not locked, the secret is
      stored, and a right code from it in time turns two-step verification on, by the
      authenticator if it was off. No cooldown and no allowance refuses it. */
  lemma EnrolmentEnables(cfg: Config, users: map<UserId, User>, past: seq<Moment>, t: TaskId, user: UserId, secret: string,
                         id: ChallengeId, ttl: nat, at: real, later: real)
    requires MayEnrol(cfg, Run(cfg, users, past), t, user, id, at)
    requires at <= later < at + (if ttl > 0 then ttl else cfg.codeTtl) as real
    ensures
      var a := Run(cfg, users, past);
      var stored := Run(cfg, users, past + EnrolRun(t, user, secret, id, ttl, at, later)[..2]);
      var b := Run(cfg, users, past + EnrolRun(t, user, secret, id, ttl, at, later));
      && stored.users == a.users[user := a.users[user].(secret := Some(secret))]
      && b.users == a.users[user := Enrolled(a.users[user], secret)] && b.tasks == a.tasks && b.log == a.log && b.clock == later
  {
    hide Next, Run, WasMinted, Taken, Prune, LockRefusal, After, NewId, Sound;
    var run := EnrolRun(t, user, secret, id, ttl, at, later);
    var actions, sys, n := past + run, Run(cfg, users, past), |past|;
    assert actions[..n + 6] == actions && actions[..n + 2] == past + run[..2];
    EnrolIsProven(cfg, users, past, actions, t, user, secret, id, ttl, at, later);
    EnrolEnds(cfg, sys, Run(cfg, users, actions[..n + 4]), t, user, secret, later);
    RunNext(cfg, users, actions, n + 4);
    RunNext(cfg, users, actions, n + 5);
  }

  lemma EnrolEnds(cfg: Config, a: System, b: System, t: TaskId, user: UserId, secret: string, later: real)
    requires Idle(a, t) && user in a.users && !Taken(a.users, user, a.users[user])
    requires Waits(b, t) && b.tasks[t].Proven? && b.tasks[t].c.user == user && b.tasks[t].c.purpose == VerifyContact
    requires b.tasks[t].c.channel == Totp && b.tasks[t].c.destination.None?
    requires b == a.(calls := b.calls, clock := later, tasks := a.tasks[t := b.tasks[t]], steps := b.steps,
                     users := a.users[user := a.users[user].(secret := Some(secret))])
    requires b.tasks[t].seen.Some? ==> b.tasks[t].seen == Some(b.users[user])
    ensures
      var c := Next(cfg, Next(cfg, b, ProvenLoaded(t, 0), later), ContactSaved(t), later);
      c.users == a.users[user := Enrolled(a.users[user], secret)] && c.tasks == a.tasks && c.log == a.log && c.clock == later
  {
    hide Next, Taken;
    TakenWithSecret(a.users, user, secret);
    EnrolIsUsed(cfg, b, t, user, later);
  }

  lemma AuthenticatorIsRight(c: Challenge, id: ChallengeId)
    requires c.channel == Totp
    ensures RightFor(c, id, "", Right)
  {
  }
}
