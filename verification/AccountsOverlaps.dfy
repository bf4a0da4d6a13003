/** What was in flight when a reset returned and comes to its end all the same: a sign-in whose
    code is still being sent, and a sign-in or a recovery whose code has been verified but has
    not been put to its use (password_reset_service.py, auth_service.py). */
module AccountsOverlaps {
  import opened Wrappers
  import opened Otp
  import opened OtpLifecycle
  import opened Accounts
  import opened AccountsProofs
  import opened AccountsSettings
  import opened AccountsSignIn
  import opened AccountsProgress
  import opened AccountsResets
  import opened AccountsInFlight

  // -- A code that is being sent ---------------------------------------------------

  /** A sign-in and a reset of one account overlap: the password is checked, the reset saves a
      new one, the code is claimed, the reset returns, and only then does the provider accept
      the code, which is entered. */
  function OverlapRun(t: TaskId, other: TaskId, user: UserId, password: string, send: SendInput, at: real, later: real): seq<Moment> {
    [Moment(FirstFactorLoaded(t, user), at), Moment(PasswordSaved(other, password), at), Moment(FirstFactorPassed(t, send), at),
     Moment(PasswordRefreshed(other), at), Moment(SendReturned(t, true), at),
     Moment(CodeEntered(t, SignIn, send.id, send.code, user), later), Moment(OwnerLoaded(t, Right), later),
     Moment(ProvenLoaded(t, 0), later), Moment(SessionSaved(t), later)]
  }

  /** A reset is about to save the user's new password. */
  predicate AboutToReset(sys: System, other: TaskId, user: UserId) {
    Waits(sys, other) && sys.tasks[other].SettingPassword? && sys.tasks[other].user == user
  }

  /** What the overlap needs: a reset about to save, and a sign-in by a code that is sent. */
  predicate MayOverlap(cfg: Config, sys: System, t: TaskId, other: TaskId, user: UserId, send: SendInput, at: real) {
    t != other && AboutToReset(sys, other, user)
    && MaySignIn(cfg, sys, t, user, send, at) && DefaultChannel(sys.users[user]) != Some(Totp)
  }

  /** Up to the code that is on its way while the password is already the new one. */
  lemma OverlapSends(cfg: Config, sys: System, t: TaskId, other: TaskId, user: UserId, password: string, send: SendInput, at: real)
    requires MayOverlap(cfg, sys, t, other, user, send, at)
    ensures
      var row := sys.users[user];
      var op := SignInClaim(user, row, send);
      var loaded := Next(cfg, sys, FirstFactorLoaded(t, user), at);
      var saved := Next(cfg, loaded, PasswordSaved(other, password), at);
      var b := Next(cfg, saved, FirstFactorPassed(t, send), at);
      && b.calls == sys.calls + [Call(op, at)] && b.clock == at && b.log.sessions == sys.log.sessions
      && b.users == sys.users[user := row.(password := Some(password))]
      && b.tasks == sys.tasks[t := Sending(send.id, user, SignIn, None)][other := PasswordSet(user)]
      && var pending := After(cfg, b.calls).codes.pending; send.id in pending && pending[send.id] == Minted(cfg, op, at)
  {
    hide Next, After, Minted, Claimable, Ready, WasMinted, DefaultChannel;
    var row := sys.users[user];
    var op := SignInClaim(user, row, send);
    var identified := Identified(user, row, sys.steps);
    var loaded := sys.(clock := at, steps := sys.steps + 1, tasks := sys.tasks[t := identified]);
    RowIsLoaded(cfg, sys, t, user, at);
    PasswordIsSaved(cfg, loaded, other, password);
    var saved := Next(cfg, loaded, PasswordSaved(other, password), at);
    OverlapClaims(cfg, saved, t, user, row, send, at);
    assert saved.tasks[t := Sending(send.id, user, SignIn, None)] == sys.tasks[t := Sending(send.id, user, SignIn, None)][other := PasswordSet(user)];
  }

  lemma OverlapClaims(cfg: Config, sys: System, t: TaskId, user: UserId, row: User, send: SendInput, at: real)
    requires Waits(sys, t) && sys.tasks[t].Identified? && sys.tasks[t].user == user && sys.tasks[t].row == row && sys.clock == at
    requires NewId(sys, send.id) && row.active && row.enabled && Ready(row) && DefaultChannel(row) != Some(Totp) && send.configured
    requires Claimable(cfg, After(cfg, sys.calls), SignInClaim(user, row, send), at)
    ensures
      var op := SignInClaim(user, row, send);
      var b := Next(cfg, sys, FirstFactorPassed(t, send), at);
      && b == sys.(steps := sys.steps + 1, calls := sys.calls + [Call(op, at)], tasks := sys.tasks[t := Sending(send.id, user, SignIn, None)])
      && var pending := After(cfg, b.calls).codes.pending; send.id in pending && pending[send.id] == Minted(cfg, op, at)
  {
    hide AskSwitch, PassSwitch, SaveContact, SaveEnrol, FindRecovery, AskContact, ReturnSend, LoadFirstFactor;
    hide AskRecovery, AskEnrol, AskDisable, SaveDisable, RefreshDisable, AskReset, LoadReset, SavePassword, RefreshPassword;
    hide ChangeRow, AskChange, SaveChange, AskPreference, SavePreference, SaveSession, EnterCode, LoadOwner, UseProof;
    hide StartSend, StartTotp, NewId, Claimable, After, Minted;
    SendStarts(cfg, sys, t, SignInClaim(user, row, send), None, at);
  }

  /** The reset returns, and the provider accepts the code: it is live all the same. */
  lemma OverlapReturns(cfg: Config, sys: System, t: TaskId, other: TaskId, user: UserId, id: ChallengeId, c: Challenge, at: real)
    requires t != other && Waits(sys, t) && sys.tasks[t] == Sending(id, user, SignIn, None) && Waits(sys, other) && sys.tasks[other] == PasswordSet(user)
    requires sys.clock == at && 0.0 <= at < c.expiresAt && c.channel != Totp && c.purpose == SignIn
    requires var pending := After(cfg, sys.calls).codes.pending; id in pending && pending[id] == c
    ensures
      var b := Next(cfg, Next(cfg, sys, PasswordRefreshed(other), at), SendReturned(t, true), at);
      && b.users == sys.users && b.log == sys.log && b.clock == at && Idle(b, t)
      && Outstanding(cfg, After(cfg, b.calls), id, c, at)
  {
    hide AskSwitch, PassSwitch, SaveContact, SaveEnrol, FindRecovery, AskContact, LoadFirstFactor, PassFirstFactor;
    hide AskRecovery, AskEnrol, AskDisable, SaveDisable, RefreshDisable, AskReset, LoadReset, SavePassword;
    hide ChangeRow, AskChange, SaveChange, AskPreference, SavePreference, SaveSession, EnterCode, LoadOwner, UseProof;
    hide After, Outstanding, Install, WithoutUser;
    PendingOutlives(cfg, sys.calls, user, at);
    var returned := Next(cfg, sys, PasswordRefreshed(other), at);
    assert returned.tasks == sys.tasks - {other};
    InstallSucceeds(cfg, returned, t, id, c, None, at);
  }

  /** A claim outlives a reset: from any moment of any run at which a reset is
      about to save the new password and a sign-in may be started, there is a run in which the
      sign-in's password was checked before the reset saved the new one, the reset has
      returned before the code becomes live, and the sign-in still ends in a session. */
  lemma OldSignInFinishes(cfg: Config, users: map<UserId, User>, past: seq<Moment>, t: TaskId, other: TaskId, user: UserId,
                          password: string, send: SendInput, at: real, later: real)
    requires MayOverlap(cfg, Run(cfg, users, past), t, other, user, send, at) && at <= later < at + cfg.codeTtl as real
    ensures
      var actions := past + OverlapRun(t, other, user, password, send, at, later);
      var before, sessions := Run(cfg, users, past).log.sessions, Run(cfg, users, actions).log.sessions;
      && Returns(Run(cfg, users, actions[..|past| + 3]), actions[|past| + 3], user)
      && |sessions| == |before| + 1 && sessions[..|before|] == before
      && sessions[|before|].user == user && sessions[|before|].proof.Some?
  {
    hide Next, Run, Outstanding, After, Claimable, NewId, Sound, MintedBy, SaneCalls, Minted, RightFor;
    var actions := past + OverlapRun(t, other, user, password, send, at, later);
    var sys, n := Run(cfg, users, past), |past|;
    var row := sys.users[user];
    var c := Minted(cfg, SignInClaim(user, row, send), at);
    assert actions[..n] == past && actions[..n + 9] == actions;
    ClockIsPositive(cfg, users, past);
    OverlapSends(cfg, sys, t, other, user, password, send, at);
    RunNext(cfg, users, actions, n);
    RunNext(cfg, users, actions, n + 1);
    RunNext(cfg, users, actions, n + 2);
    SignInMints(cfg, user, row, send, at);
    SentIsNoTotp(cfg, user, row, send, at);
    hide Ready, DefaultChannel, SignInClaim, MaySignIn;
    OverlapReturns(cfg, Run(cfg, users, actions[..n + 3]), t, other, user, send.id, c, at);
    RunNext(cfg, users, actions, n + 3);
    RunNext(cfg, users, actions, n + 4);
    SessionFollows(cfg, users, actions, n + 5, t, send.id, c, send.code, at, later);
  }

  lemma ClockIsPositive(cfg: Config, users: map<UserId, User>, actions: seq<Moment>)
    ensures Run(cfg, users, actions).clock >= 0.0
  {
    hide Run, Sound, MintedBy;
    EveryRunIsSound(cfg, users, actions);
  }

  lemma SentIsNoTotp(cfg: Config, user: UserId, row: User, send: SendInput, at: real)
    requires Ready(row) && DefaultChannel(row) != Some(Totp)
    ensures Minted(cfg, SignInClaim(user, row, send), at).channel != Totp
  {
  }

  // -- A code that has been verified -----------------------------------------------

  /** The row a proven request acts on: the one it has seen, or the one there is. */
  function RowOf(sys: System, task: Task): Option<User>
    requires task.Proven?
  {
    if task.c.user !in sys.users then None else if task.seen.Some? then task.seen else Some(sys.users[task.c.user])
  }

  function UsingRun(t: TaskId, token: Token, at: real): seq<Moment> {
    [Moment(ProvenLoaded(t, token), at), Moment(SessionSaved(t), at)]
  }

  lemma ProofIsIssued(cfg: Config, sys: System, t: TaskId)
    requires Waits(sys, t) && sys.tasks[t].Proven? && sys.tasks[t].c.purpose == SignIn
    ensures
      var Proven(proof, c, seen, seenAt) := sys.tasks[t];
      var row, loadedAt := RowOf(sys, sys.tasks[t]), if seen.Some? then seenAt else sys.steps;
      var b := Next(cfg, Next(cfg, sys, ProvenLoaded(t, 0), sys.clock), SessionSaved(t), sys.clock);
      && b.calls == sys.calls
      && b.log.sessions == sys.log.sessions
        + if row.Some? && row.value.active && row.value.enabled then [Session(c.user, loadedAt, Some(proof), sys.steps + 1)] else []
  {
    hide EnterCode, LoadOwner, AskSwitch, PassSwitch, SaveContact, SaveEnrol, FindRecovery, AskContact, PassFirstFactor, ReturnSend;
    hide AskRecovery, AskEnrol, AskDisable, SaveDisable, RefreshDisable, AskReset, LoadReset, SavePassword, RefreshPassword;
    hide LoadFirstFactor, ChangeRow, AskChange, SaveChange, AskPreference, SavePreference, WithoutExpired;
  }

  /** A verified sign-in outlives a reset: a request that holds its proof when the reset
      returns gets its session, without any further check of the code, if and only if the
      account it acts on is active and has two-step verification on; the code had been claimed,
      and verified, before the return. */
  lemma ProvenSignInFinishes(cfg: Config, users: map<UserId, User>, past: seq<Moment>, user: UserId, t: TaskId)
    requires EndsInReturn(cfg, users, past, user)
    requires var now := Run(cfg, users, past);
      Waits(now, t) && now.tasks[t].Proven? && now.tasks[t].c.user == user && now.tasks[t].c.purpose == SignIn
    ensures
      var now := Run(cfg, users, past);
      var later := Run(cfg, users, past + UsingRun(t, 0, now.clock));
      var Proven(proof, _, seen, seenAt) := now.tasks[t];
      var row, loadedAt := RowOf(now, now.tasks[t]), if seen.Some? then seenAt else |past|;
      && proof < |now.calls| && VerifiesEarly(cfg, later.calls, proof, now.calls, user)
      && later.log.sessions == now.log.sessions
        + if row.Some? && row.value.active && row.value.enabled then [Session(user, loadedAt, Some(proof), |past| + 1)] else []
  {
    hide Next, Run, Returns, Linear, WasMinted, AnswerTo, SaneCalls, MintedBy;
    var now, n := Run(cfg, users, past), |past|;
    var actions := past + UsingRun(t, 0, now.clock);
    assert actions[..n] == past && actions[..n + 2] == actions;
    StepsTaken(cfg, users, past);
    EveryRunIsSound(cfg, users, past);
    assert At(now, InTask(t)) == Some(TaskItem(now.tasks[t]));
    ProofIsEarly(cfg, now.calls, now.tasks[t].proof);
    ProofIsIssued(cfg, now, t);
    RunNext(cfg, users, actions, n);
    RunNext(cfg, users, actions, n + 1);
  }

  function ResettingRun(t: TaskId, token: Token, password: string, at: real): seq<Moment> {
    [Moment(ProvenLoaded(t, token), at), Moment(ResetAsked(t, token), at), Moment(ResetLoaded(t), at), Moment(PasswordSaved(t, password), at)]
  }

  lemma InactiveIsRefused(cfg: Config, sys: System, t: TaskId, token: Token)
    requires Waits(sys, t) && sys.tasks[t].Proven? && sys.tasks[t].c.purpose == PasswordReset
    requires var row := RowOf(sys, sys.tasks[t]); row.None? || !row.value.active
    ensures Next(cfg, sys, ProvenLoaded(t, token), sys.clock).authorizations == sys.authorizations
  {
    hide EnterCode, LoadOwner, AskSwitch, PassSwitch, SaveContact, SaveEnrol, FindRecovery, AskContact, PassFirstFactor, ReturnSend;
    hide AskRecovery, AskEnrol, AskDisable, SaveDisable, RefreshDisable, AskReset, LoadReset, SavePassword, RefreshPassword;
    hide LoadFirstFactor, ChangeRow, AskChange, SaveChange, AskPreference, SavePreference, SaveSession;
  }

  /** A verified recovery outlives a reset of the same account: a request that holds its proof
      when the reset returns is given an authorization if and only if the account it acts on
      is active, and the authorization sets yet another password. */
  lemma ProvenRecoveryFinishes(cfg: Config, users: map<UserId, User>, past: seq<Moment>, user: UserId, t: TaskId, token: Token, password: string)
    requires EndsInReturn(cfg, users, past, user) && token !in Run(cfg, users, past).tokens
    requires var now := Run(cfg, users, past);
      Waits(now, t) && now.tasks[t].Proven? && now.tasks[t].c.user == user && now.tasks[t].c.purpose == PasswordReset
    ensures
      var now := Run(cfg, users, past);
      var used := Run(cfg, users, past + ResettingRun(t, token, password, now.clock)[..1]);
      var reset := Run(cfg, users, past + ResettingRun(t, token, password, now.clock));
      var proof, row := now.tasks[t].proof, RowOf(now, now.tasks[t]);
      && proof < |now.calls| && VerifiesEarly(cfg, now.calls, proof, now.calls, user)
      && (if row.Some? && row.value.active then
            && token in used.authorizations
            && used.authorizations[token] == Authorization(user, now.clock + cfg.authorizationTtl as real, now.clock, proof)
            && (now.users[user].active ==>
                  && reset.log.passwords == now.log.passwords + [PasswordChange(user, password, proof, now.clock, now.clock)]
                  && user in reset.users && reset.users[user].password == Some(password))
          else used.authorizations == now.authorizations)
  {
    hide Next, Run, Returns, Linear, WasMinted, AnswerTo, SaneCalls, MintedBy;
    var now, n := Run(cfg, users, past), |past|;
    var run := ResettingRun(t, token, password, now.clock);
    var actions := past + run;
    assert actions[..n] == past && actions[..n + 1] == past + run[..1] && actions[..n + 4] == actions;
    EveryRunIsSound(cfg, users, past);
    assert At(now, InTask(t)) == Some(TaskItem(now.tasks[t]));
    ProofIsEarly(cfg, now.calls, now.tasks[t].proof);
    RunNext(cfg, users, actions, n);
    var row := RowOf(now, now.tasks[t]);
    if row.Some? && row.value.active {
      ProofIsAuthorized(cfg, now, t, token, now.clock);
      if now.users[user].active {
        ProofOpensReset(cfg, now, t, token, now.clock);
        RunNext(cfg, users, actions, n + 1);
        RunNext(cfg, users, actions, n + 2);
        PasswordIsSaved(cfg, Run(cfg, users, actions[..n + 3]), t, password);
        RunNext(cfg, users, actions, n + 3);
      }
    } else {
      InactiveIsRefused(cfg, now, t, token);
    }
  }

  /** The password and the code of a sign-in are checked, and then a reset saves a new password
      and returns. */
  function ProofRun(t: TaskId, other: TaskId, user: UserId, password: string, send: SendInput, at: real, later: real): seq<Moment> {
    SignInRun(t, user, send, send.code, at, later)[..5] + [Moment(PasswordSaved(other, password), later), Moment(PasswordRefreshed(other), later)]
  }

  lemma ReturnKeeps(cfg: Config, sys: System, t: TaskId)
    requires Waits(sys, t) && sys.tasks[t].PasswordSet?
    ensures
      var b := Next(cfg, sys, PasswordRefreshed(t), sys.clock);
      b.users == sys.users && b.log == sys.log && b.tasks == sys.tasks - {t} && b.clock == sys.clock && Returns(sys, Moment(PasswordRefreshed(t), sys.clock), sys.tasks[t].user)
  {
    hide WithoutUser;
  }

  /** The first five steps of a sign-in end in a proof. */
  lemma SignInIsProven(cfg: Config, users: map<UserId, User>, past: seq<Moment>, actions: seq<Moment>, t: TaskId, user: UserId,
                       send: SendInput, at: real, later: real)
    requires MaySignIn(cfg, Run(cfg, users, past), t, user, send, at) && at <= later < at + cfg.codeTtl as real
    requires past + SignInRun(t, user, send, send.code, at, later)[..5] <= actions
    ensures
      var a, b := Run(cfg, users, past), Run(cfg, users, actions[..|past| + 5]);
      && Waits(b, t) && b.tasks[t].Proven? && b.tasks[t].c.user == user && b.tasks[t].c.purpose == SignIn
      && b == a.(calls := b.calls, clock := later, tasks := a.tasks[t := b.tasks[t]], steps := a.steps + 5)
      && (b.tasks[t].seen.Some? ==> b.tasks[t].seen == Some(a.users[user]))
  {
    hide Next, Run, Outstanding, After, Claimable, Ready, WasMinted, Minted, RightFor, MintsOnly;
    var sys, n := Run(cfg, users, past), |past|;
    assert actions[..n] == past;
    assert forall k :: 0 <= k < 5 ==> actions[n + k] == SignInRun(t, user, send, send.code, at, later)[k];
    ClockIsPositive(cfg, users, past);
    FirstSteps(cfg, sys, t, user, send, at);
    RunNext(cfg, users, actions, n);
    RunNext(cfg, users, actions, n + 1);
    RunNext(cfg, users, actions, n + 2);
    SignInMints(cfg, user, sys.users[user], send, at);
    CodeStepsProve(cfg, Run(cfg, users, actions[..n + 3]), t, send.id, Minted(cfg, SignInClaim(user, sys.users[user], send), at), send.code, at, later);
    RunNext(cfg, users, actions, n + 3);
    RunNext(cfg, users, actions, n + 4);
  }

  /** A verified sign-in outlives a reset: from any moment of any run at which a reset is about
      to save the new password and a sign-in may be started, authenticators included, there is
      a run in which the sign-in's password and code are checked before the save, and the
      session is issued after the return. */
  lemma OldProofFinishes(cfg: Config, users: map<UserId, User>, past: seq<Moment>, t: TaskId, other: TaskId, user: UserId,
                         password: string, send: SendInput, at: real, later: real)
    requires AboutToReset(Run(cfg, users, past), other, user) && t != other
    requires MaySignIn(cfg, Run(cfg, users, past), t, user, send, at) && at <= later < at + cfg.codeTtl as real
    ensures
      var returned := past + ProofRun(t, other, user, password, send, at, later);
      var before, sessions := Run(cfg, users, past).log.sessions, Run(cfg, users, returned + UsingRun(t, 0, later)).log.sessions;
      && EndsInReturn(cfg, users, returned, user)
      && |sessions| == |before| + 1 && sessions[..|before|] == before
      && sessions[|before|].user == user && sessions[|before|].proof.Some?
      && sessions[|before|].proof.value < |Run(cfg, users, returned).calls|
  {
    hide Next, Run, Claimable, Ready, WasMinted, Returns, VerifiesEarly;
    var returned, n := past + ProofRun(t, other, user, password, send, at, later), |past|;
    assert returned[..n + 7] == returned;
    var sys := Run(cfg, users, past);
    SignInIsProven(cfg, users, past, returned, t, user, send, at, later);
    var proven, saved := Run(cfg, users, returned[..n + 5]), Run(cfg, users, returned[..n + 6]);
    PasswordIsSaved(cfg, proven, other, password);
    RunNext(cfg, users, returned, n + 5);
    ReturnKeeps(cfg, saved, other);
    RunNext(cfg, users, returned, n + 6);
    ProvenSignInFinishes(cfg, users, returned, user, t);
  }

  // -- One concrete run ------------------------------------------------------------

  const LATE_SEND := SendInput(3, "135790", None, true)

  /** When nothing counted at the start counts any more. */
  function Later(cfg: Config): real {
    (cfg.window + cfg.cooldown + DAY + cfg.lockout + 1) as real
  }

  /** A new account confirms a mobile number; later its password is recovered by e-mail, up to
      the reset that is about to save the new one. */
  function RecoveredRun(cfg: Config): seq<Moment> {
    ContactRun(0, 1, Sms, NUMBER, SEND, 0.0, 0.0) + ProvingRun(0, 1, Email, None, NEXT_SEND, 0, Later(cfg), Later(cfg))
  }

  lemma ConfirmedAccount(cfg: Config)
    ensures
      var row := Confirmed(NEWCOMER, Sms, NUMBER);
      var sys := Run(cfg, map[1 := NEWCOMER], ContactRun(0, 1, Sms, NUMBER, SEND, 0.0, 0.0));
      && sys.users == map[1 := row] && sys.tasks == map[] && sys.tokens == {} && sys.clock == 0.0 && sys.log.sessions == []
      && MintsOnly([], sys.calls, ContactClaim(1, Sms, NUMBER, SEND))
  {
    hide Next, Confirmed;
    var users, contact := map[1 := NEWCOMER], ContactRun(0, 1, Sms, NUMBER, SEND, 0.0, 0.0);
    NewAccountMayConfirm(cfg, users, 0, 1, Sms, NUMBER, SEND, 0.0);
    assert Run(cfg, users, []) == Start(users);
    assert [] + contact == contact;
    hide Run, Claimable, Taken, MintsOnly;
    ContactConfirms(cfg, users, [], 0, 1, Sms, NUMBER, SEND, 0.0, 0.0);
  }

  lemma ConfirmedRowIs()
    ensures Confirmed(NEWCOMER, Sms, NUMBER) == NEWCOMER.(mobile := Some(NUMBER), enabled := true, preference := Known(Sms))
  {
  }

  lemma RecoveredAccount(cfg: Config)
    ensures
      var row := Confirmed(NEWCOMER, Sms, NUMBER);
      var a, sys := Run(cfg, map[1 := NEWCOMER], ContactRun(0, 1, Sms, NUMBER, SEND, 0.0, 0.0)), Run(cfg, map[1 := NEWCOMER], RecoveredRun(cfg));
      && sys.users == map[1 := row] && AboutToReset(sys, 0, 1) && 5 !in sys.tasks && sys.clock == Later(cfg) && sys.log.sessions == []
      && MintsOnly(a.calls, sys.calls, RecoveryClaim(1, row, Email, NEXT_SEND))
  {
    hide Next, Run, Confirmed, MintsOnly, RestedFor, LocksEnd, Claimable, After, Answered;
    var users, contact := map[1 := NEWCOMER], ContactRun(0, 1, Sms, NUMBER, SEND, 0.0, 0.0);
    ConfirmedAccount(cfg);
    ConfirmedRowIs();
    var sys := Run(cfg, users, contact);
    var op := RecoveryClaim(1, sys.users[1], Email, NEXT_SEND);
    RunRests(cfg, users, contact, RequestOf(op));
    WaitedIsClaimable(cfg, After(cfg, sys.calls), op, 0.0, Later(cfg));
    assert NewId(sys, NEXT_SEND.id) by { OnlyThatIsMinted(sys.calls, ContactClaim(1, Sms, NUMBER, SEND), NEXT_SEND.id); }
    assert Answered(cfg, sys, ReserveRequest(None), Later(cfg)) == Accepted by { UncountedIsAccepted(cfg, sys, Later(cfg)); }
    hide NewId, RecoveryClaim;
    RecoveryReaches(cfg, users, contact, 0, 1, Email, None, NEXT_SEND, 0, Later(cfg), Later(cfg));
  }

  lemma UncountedIsAccepted(cfg: Config, sys: System, at: real)
    ensures Answered(cfg, sys, ReserveRequest(None), at) == Accepted
  {
    hide After;
  }

  lemma OnlyThatIsMinted(calls: seq<Call>, op: Operation, id: ChallengeId)
    requires Mints(op) && MintsOnly([], calls, op) && op.id != id
    ensures !WasMinted(calls, id)
  {
  }

  /** The overlap does happen: the run reaches, from one new account, a moment at which a reset
      is about to save the new password and a sign-in by text message may be started. */
  lemma OverlapIsReachable(cfg: Config)
    ensures Fresh(map[1 := NEWCOMER])
    ensures
      var sys := Run(cfg, map[1 := NEWCOMER], RecoveredRun(cfg));
      MayOverlap(cfg, sys, 5, 0, 1, LATE_SEND, Later(cfg)) && sys.log.sessions == []
  {
    hide Next, Run, Confirmed, MintsOnly, RestedFor, LocksEnd, Claimable, After, Shares;
    var users, contact := map[1 := NEWCOMER], ContactRun(0, 1, Sms, NUMBER, SEND, 0.0, 0.0);
    ConfirmedAccount(cfg);
    ConfirmedRowIs();
    RecoveredAccount(cfg);
    var a, b := Run(cfg, users, contact), Run(cfg, users, RecoveredRun(cfg));
    var row := Confirmed(NEWCOMER, Sms, NUMBER);
    var op, r := SignInClaim(1, row, LATE_SEND), RequestOf(SignInClaim(1, row, LATE_SEND));
    RunRests(cfg, users, contact, r);
    RecoverySharesNothing(cfg, a.calls, b.calls, r);
    WaitedIsClaimable(cfg, After(cfg, b.calls), op, 0.0, Later(cfg));
    MintsTwo(a.calls, b.calls, ContactClaim(1, Sms, NUMBER, SEND), RecoveryClaim(1, row, Email, NEXT_SEND), LATE_SEND.id);
  }

  lemma RecoverySharesNothing(cfg: Config, a: seq<Call>, b: seq<Call>, r: Request)
    requires r == Request(1, Sms, SignIn, Some(NUMBER), None, true) && RestedFor(After(cfg, a).limits, r, 0.0)
    requires MintsOnly(a, b, RecoveryClaim(1, Confirmed(NEWCOMER, Sms, NUMBER), Email, NEXT_SEND))
    ensures RestedFor(After(cfg, b).limits, r, 0.0)
  {
    hide After, RestedFor;
    assert b[..|a|] == a;
    CallsRest(cfg, b, |a|, r, 0.0);
  }

  lemma MintsTwo(a: seq<Call>, b: seq<Call>, first: Operation, second: Operation, id: ChallengeId)
    requires Mints(first) && Mints(second) && MintsOnly([], a, first) && MintsOnly(a, b, second) && first.id != id && second.id != id
    ensures !WasMinted(b, id)
  {
  }

  /** Both old sign-ins, from one new account: with a code that was still being sent, and with
      a code that had been verified, when the reset of the password returned. */
  lemma OldSignIns(cfg: Config)
    ensures
      var users, past, at := map[1 := NEWCOMER], RecoveredRun(cfg), Later(cfg);
      var sessions := Run(cfg, users, past + OverlapRun(5, 0, 1, "new", LATE_SEND, at, at)).log.sessions;
      |sessions| == 1 && sessions[0].user == 1 && sessions[0].proof.Some?
    ensures
      var users, past, at := map[1 := NEWCOMER], RecoveredRun(cfg), Later(cfg);
      var sessions := Run(cfg, users, past + ProofRun(5, 0, 1, "new", LATE_SEND, at, at) + UsingRun(5, 0, at)).log.sessions;
      |sessions| == 1 && sessions[0].user == 1 && sessions[0].proof.Some?
  {
    hide Next, Run, MaySignIn;
    var users, past, at := map[1 := NEWCOMER], RecoveredRun(cfg), Later(cfg);
    OverlapIsReachable(cfg);
    OldSignInFinishes(cfg, users, past, 5, 0, 1, "new", LATE_SEND, at, at);
    OldProofFinishes(cfg, users, past, 5, 0, 1, "new", LATE_SEND, at, at);
  }
}
