/** The promises are not kept by refusing everybody: from any moment of any run, a sign-in or
    a contact confirmation that no limit refuses, and whose code is entered in time, reaches
    its end. With these two flows come the runs in which a promise is lost. */
module AccountsSignIn {
  import opened Wrappers
  import opened Otp
  import opened OtpLifecycle
  import opened Accounts
  import opened AccountsProofs
  import opened AccountsSettings

  // -- The store -------------------------------------------------------------------

  /** The challenge can be verified by its user until it expires. */
  predicate Outstanding(cfg: Config, s: State, id: ChallengeId, c: Challenge, at: real) {
    0.0 <= at < c.expiresAt && id in s.codes.live && s.codes.live[id] == c
    && (c.channel == Totp ==> LockRefusal(s.guard, c.user, at).None?)
  }

  predicate Claimable(cfg: Config, s: State, op: Operation, at: real) {
    Mints(op) && ClaimRefusal(cfg, Prune(cfg, s, at), op, at).None?
  }

  lemma ClaimMints(cfg: Config, s: State, op: Operation, at: real)
    requires Claimable(cfg, s, op, at)
    ensures var o := Step(cfg, s, op, at);
      && o.answer == Issued(op.id) && op.id in o.state.codes.pending && o.state.codes.pending[op.id] == Minted(cfg, op, at)
      && (op.ClaimTotp? ==> LockRefusal(o.state.guard, op.user, at).None?)
      && forall id :: id in s.codes.live && s.codes.live[id].expiresAt > at ==>
        id in o.state.codes.live && o.state.codes.live[id] == s.codes.live[id]
  {
    PruneKeeps(cfg, s, at);
    hide Prune, Recorded, Refusal, Minted;
  }

  /** A switch can still move away from the challenge. */
  predicate Leavable(s: State, supersedes: Option<ChallengeId>, c: Challenge, at: real) {
    supersedes.Some? ==>
      var x := supersedes.value;
      x in s.codes.live && s.codes.live[x].expiresAt > at && SameFlow(s.codes.live[x], c)
  }

  lemma CommitInstalls(cfg: Config, s: State, id: ChallengeId, c: Challenge, supersedes: Option<ChallengeId>, at: real)
    requires id in s.codes.pending && s.codes.pending[id] == c && 0.0 <= at < c.expiresAt && Leavable(s, supersedes, c, at)
    requires c.channel == Totp ==> LockRefusal(s.guard, c.user, at).None?
    ensures var o := Step(cfg, s, Commit(id, supersedes), at);
      && o.answer == Accepted && Outstanding(cfg, o.state, id, c, at)
      && (supersedes.Some? && supersedes.value != id ==> supersedes.value !in o.state.codes.live)
  {
  }

  lemma ReadKeeps(cfg: Config, s: State, id: ChallengeId, c: Challenge, at: real, later: real)
    requires Outstanding(cfg, s, id, c, at) && at <= later < c.expiresAt
    ensures var o := Step(cfg, s, RequireLive(id, c.purpose), later); o.answer == Live(c) && Outstanding(cfg, o.state, id, c, later)
    ensures Outstanding(cfg, Prune(cfg, s, later), id, c, later)
  {
    hide PruneLimits, PruneEvents;
  }

  lemma RightCode(cfg: Config, s: State, op: Operation, c: Challenge, at: real)
    requires op.Verify? && Outstanding(cfg, s, op.id, c, at) && op.purpose == c.purpose
    requires op.expectedUser.None? || op.expectedUser == Some(c.user)
    requires Judge(c, op.id, op.code, op.validator).Right?
    ensures Step(cfg, s, op, at).answer == Verified(c)
  {
    ReadKeeps(cfg, s, op.id, c, at, at);
    hide Prune;
  }

  /** Nothing but this claim has been made in the meantime. */
  predicate MintsOnly(before: seq<Call>, after: seq<Call>, op: Operation) {
    before <= after && forall i :: |before| <= i < |after| && Mints(after[i].op) ==> after[i].op == op
  }

  lemma MintsOnlyOnwards(a: seq<Call>, b: seq<Call>, c: seq<Call>, op: Operation)
    requires MintsOnly(a, b, op) && MintsOnly(b, c, op)
    ensures MintsOnly(a, c, op)
  {
  }

  lemma StaysNew(a: System, b: System, op: Operation, other: ChallengeId)
    requires Mints(op) && MintsOnly(a.calls, b.calls, op) && NewId(a, other) && other != op.id
    ensures NewId(b, other)
  {
  }

  // -- Pieces of a request ---------------------------------------------------------

  lemma SendStarts(cfg: Config, sys: System, t: TaskId, op: Operation, supersedes: Option<ChallengeId>, at: real)
    requires op.Claim? && Claimable(cfg, After(cfg, sys.calls), op, at) && Leavable(After(cfg, sys.calls), supersedes, Minted(cfg, op, at), at)
    ensures
      var b := StartSend(cfg, sys, t, op, supersedes, at);
      && b == Begin(Asked(sys, op, at), t, Sending(op.id, op.user, op.purpose, supersedes))
      && Leavable(After(cfg, b.calls), supersedes, Minted(cfg, op, at), at)
      && var pending := After(cfg, b.calls).codes.pending; op.id in pending && pending[op.id] == Minted(cfg, op, at)
  {
    hide Minted, Step, Claimable;
    AfterOne(cfg, sys.calls, Call(op, at));
    ClaimMints(cfg, After(cfg, sys.calls), op, at);
  }

  /** What the history of switches becomes. */
  function Switched(switched: seq<ChallengeId>, supersedes: Option<ChallengeId>): seq<ChallengeId> {
    if supersedes.Some? then switched + [supersedes.value] else switched
  }

  lemma InstallSucceeds(cfg: Config, sys: System, t: TaskId, id: ChallengeId, c: Challenge, supersedes: Option<ChallengeId>, at: real)
    requires var s := After(cfg, sys.calls);
      && id in s.codes.pending && s.codes.pending[id] == c && 0.0 <= at < c.expiresAt && Leavable(s, supersedes, c, at)
      && (c.channel == Totp ==> LockRefusal(s.guard, c.user, at).None?)
    ensures
      var b := Install(cfg, sys, t, id, c.purpose, supersedes, at);
      && b == End(sys, t).(calls := sys.calls + [Call(Commit(id, supersedes), at)] + [Call(RequireLive(id, c.purpose), at)],
                           switched := Switched(sys.switched, supersedes))
      && Outstanding(cfg, After(cfg, b.calls), id, c, at)
      && (supersedes.Some? && supersedes.value != id ==> supersedes.value !in After(cfg, b.calls).codes.live)
  {
    hide Step, Outstanding, Leavable;
    var commit, look := Call(Commit(id, supersedes), at), Call(RequireLive(id, c.purpose), at);
    AfterOne(cfg, sys.calls, commit);
    CommitInstalls(cfg, After(cfg, sys.calls), id, c, supersedes, at);
    AfterOne(cfg, sys.calls + [commit], look);
    ReadKeeps(cfg, After(cfg, sys.calls + [commit]), id, c, at, at);
    if supersedes.Some? {
      StepAt(cfg, After(cfg, sys.calls + [commit]), look.op, at, supersedes.value);
    }
    hide After;
  }

  lemma TotpStarted(cfg: Config, sys: System, t: TaskId, op: Operation, supersedes: Option<ChallengeId>, at: real)
    requires op.ClaimTotp? && Claimable(cfg, After(cfg, sys.calls), op, at) && op.ttl.None? && at >= 0.0
    requires Leavable(After(cfg, sys.calls), supersedes, Minted(cfg, op, at), at)
    ensures
      var b := StartTotp(cfg, sys, t, op, supersedes, at);
      && b == End(sys, t).(calls := b.calls, switched := Switched(sys.switched, supersedes)) && MintsOnly(sys.calls, b.calls, op)
      && Outstanding(cfg, After(cfg, b.calls), op.id, Minted(cfg, op, at), at)
      && (supersedes.Some? && supersedes.value != op.id ==> supersedes.value !in After(cfg, b.calls).codes.live)
  {
    hide Step, Claimable, Outstanding, Install;
    AfterOne(cfg, sys.calls, Call(op, at));
    ClaimMints(cfg, After(cfg, sys.calls), op, at);
    MintedLasts(cfg, op, at);
    hide After, Minted;
    InstallSucceeds(cfg, Asked(sys, op, at), t, op.id, Minted(cfg, op, at), supersedes, at);
    assert End(Asked(sys, op, at), t).tasks == End(sys, t).tasks;
  }

  /** The user's code is judged right: `verdict` is what an authenticator says. */
  predicate RightFor(c: Challenge, id: ChallengeId, code: string, verdict: Verdict) {
    if c.channel == Totp then verdict == Right else c.digest == Some(Mac(id, code))
  }

  /** A code entered in time is proof, whichever kind it is. */
  lemma CodeIsProven(cfg: Config, sys: System, t: TaskId, id: ChallengeId, c: Challenge, code: string, verdict: Verdict, at: real, later: real)
    requires Idle(sys, t) && Outstanding(cfg, After(cfg, sys.calls), id, c, at) && at <= later < c.expiresAt
    requires (c.channel == Totp ==> c.user in sys.users && sys.users[c.user].secret.Some?) && RightFor(c, id, code, verdict)
    ensures
      var entered := EnterCode(cfg, sys, t, c.purpose, id, code, c.user, later);
      var b := LoadOwner(cfg, entered.(steps := sys.steps + 1), t, verdict, later);
      && t in b.tasks && b.tasks[t].Proven? && b.tasks[t].c == c
      && b == sys.(calls := b.calls, tasks := sys.tasks[t := b.tasks[t]], steps := sys.steps + 1)
      && (b.tasks[t].seen.Some? ==> c.user in sys.users && b.tasks[t].seen == Some(sys.users[c.user]))
      && (c.channel != Totp ==> b == entered.(steps := sys.steps + 1))
      && |b.calls| == |sys.calls| + 2 && sys.calls <= b.calls && b.tasks[t].proof == |sys.calls| + 1
      && b.calls[|sys.calls|].op.RequireLive? && b.calls[|sys.calls| + 1].op.Verify? && b.calls[|sys.calls| + 1].op.id == id
  {
    hide Step, Outstanding;
    var expected := Expected(c.purpose, c.user);
    var look := Call(RequireLive(id, c.purpose), later);
    ReadKeeps(cfg, After(cfg, sys.calls), id, c, at, later);
    AfterOne(cfg, sys.calls, look);
    var validator := if c.channel == Totp then Some(verdict) else None;
    RightCode(cfg, After(cfg, sys.calls + [look]), Verify(id, code, c.purpose, expected, validator), c, later);
    hide After;
  }

  // -- Signing in ------------------------------------------------------------------

  /** The steps of one sign-in: password, send, code, session. An authenticator needs no
      send, and a sent code no owner; those steps do nothing then. */
  function SignInRun(t: TaskId, user: UserId, send: SendInput, code: string, at: real, later: real): seq<Moment> {
    [Moment(FirstFactorLoaded(t, user), at), Moment(FirstFactorPassed(t, send), at), Moment(SendReturned(t, true), at),
     Moment(CodeEntered(t, SignIn, send.id, code, user), later), Moment(OwnerLoaded(t, Right), later),
     Moment(ProvenLoaded(t, 0), later), Moment(SessionSaved(t), later)]
  }

  /** The claim of a second step by one method. */
  function LoginClaim(user: UserId, row: User, channel: Channel, send: SendInput): (op: Operation)
    ensures Mints(op) && op.id == send.id
  {
    if channel == Totp then ClaimTotp(send.id, user, SignIn, None, true)
    else Claim(send.id, send.code, user, SignIn, channel, DestinationFor(row, channel), send.address)
  }

  function SignInClaim(user: UserId, row: User, send: SendInput): Operation
    requires Ready(row)
  {
    LoginClaim(user, row, DefaultChannel(row).value, send)
  }

  /** What a sign-in needs: a free slot, an active account that can be served, and limits that
      do not refuse. */
  predicate MaySignIn(cfg: Config, sys: System, t: TaskId, user: UserId, send: SendInput, at: real) {
    Idle(sys, t) && NewId(sys, send.id) && at >= sys.clock && user in sys.users
    && sys.users[user].active && sys.users[user].enabled && Ready(sys.users[user])
    && (DefaultChannel(sys.users[user]) == Some(Totp) || send.configured)
    && Claimable(cfg, After(cfg, sys.calls), SignInClaim(user, sys.users[user], send), at)
  }

  /** The password is checked and the second step begins. */
  lemma SecondStepBegins(cfg: Config, sys: System, t: TaskId, user: UserId, send: SendInput, at: real)
    requires MaySignIn(cfg, sys, t, user, send, at)
    ensures
      var loaded := LoadFirstFactor(sys, t, user).(steps := sys.steps + 1);
      var op := SignInClaim(user, sys.users[user], send);
      && loaded == Begin(sys, t, Identified(user, sys.users[user], sys.steps)).(steps := sys.steps + 1)
      && PassFirstFactor(cfg, loaded, t, send, at)
        == if op.ClaimTotp? then StartTotp(cfg, loaded, t, op, None, at) else StartSend(cfg, loaded, t, op, None, at)
  {
    hide StartTotp, StartSend, Claimable, WasMinted;
  }

  lemma MintedLasts(cfg: Config, op: Operation, at: real)
    requires Mints(op) && (op.ClaimTotp? ==> op.ttl.None?)
    ensures var c := Minted(cfg, op, at); at < c.expiresAt && c.purpose == op.purpose && c.user == op.user
    ensures (Minted(cfg, op, at).channel == Totp) <==> (op.ClaimTotp? || op.channel == Totp)
  {
  }

  /** Up to the code that is live. */
  lemma CodeIsOut(cfg: Config, sys: System, t: TaskId, user: UserId, send: SendInput, at: real)
    requires MaySignIn(cfg, sys, t, user, send, at) && at >= 0.0
    ensures
      var loaded := LoadFirstFactor(sys, t, user).(steps := sys.steps + 1);
      var passed := PassFirstFactor(cfg, loaded, t, send, at).(steps := sys.steps + 2);
      var b := ReturnSend(cfg, passed, t, true, at);
      && b == sys.(calls := b.calls, steps := sys.steps + 2)
      && Outstanding(cfg, After(cfg, b.calls), send.id, Minted(cfg, SignInClaim(user, sys.users[user], send), at), at)
  {
    hide LoadFirstFactor, PassFirstFactor, ReturnSend, DefaultChannel, Minted, Ready, NewId, DestinationFor, Claimable, After;
    hide StartTotp, StartSend, Outstanding;
    var op := SignInClaim(user, sys.users[user], send);
    var loaded := Begin(sys, t, Identified(user, sys.users[user], sys.steps)).(steps := sys.steps + 1);
    SecondStepBegins(cfg, sys, t, user, send, at);
    assert loaded.tasks - {t} == sys.tasks;
    if op.ClaimTotp? {
      TotpIsOut(cfg, sys, loaded, t, op, None, at);
    } else {
      SentIsOut(cfg, sys, loaded, t, op, None, at);
    }
  }

  /** An authenticator challenge is live at once. */
  lemma TotpIsOut(cfg: Config, sys: System, asking: System, t: TaskId, op: Operation, supersedes: Option<ChallengeId>, at: real)
    requires op.ClaimTotp? && op.ttl.None? && Claimable(cfg, After(cfg, sys.calls), op, at) && at >= 0.0 && Idle(sys, t)
    requires asking == sys.(tasks := asking.tasks, steps := asking.steps) && asking.tasks - {t} == sys.tasks
    requires Leavable(After(cfg, sys.calls), supersedes, Minted(cfg, op, at), at)
    ensures
      var b := ReturnSend(cfg, StartTotp(cfg, asking, t, op, supersedes, at).(steps := asking.steps + 1), t, true, at);
      && b == sys.(calls := b.calls, steps := asking.steps + 1, switched := Switched(sys.switched, supersedes))
      && MintsOnly(sys.calls, b.calls, op) && Outstanding(cfg, After(cfg, b.calls), op.id, Minted(cfg, op, at), at)
      && (supersedes.Some? && supersedes.value != op.id ==> supersedes.value !in After(cfg, b.calls).codes.live)
  {
    hide Step, After, Outstanding, Claimable, Install, StartTotp, Minted, Leavable, Switched, MintsOnly;
    TotpStarted(cfg, asking, t, op, supersedes, at);
  }

  /** A send that returns leaves its code live. */
  lemma SentIsOut(cfg: Config, sys: System, asking: System, t: TaskId, op: Operation, supersedes: Option<ChallengeId>, at: real)
    requires op.Claim? && op.channel != Totp && Claimable(cfg, After(cfg, sys.calls), op, at) && at >= 0.0 && Idle(sys, t)
    requires asking == sys.(tasks := asking.tasks, steps := asking.steps) && asking.tasks - {t} == sys.tasks
    requires Leavable(After(cfg, sys.calls), supersedes, Minted(cfg, op, at), at)
    ensures
      var b := ReturnSend(cfg, StartSend(cfg, asking, t, op, supersedes, at).(steps := asking.steps + 1), t, true, at);
      && b == sys.(calls := b.calls, steps := asking.steps + 1, switched := Switched(sys.switched, supersedes))
      && MintsOnly(sys.calls, b.calls, op) && Outstanding(cfg, After(cfg, b.calls), op.id, Minted(cfg, op, at), at)
      && (supersedes.Some? && supersedes.value != op.id ==> supersedes.value !in After(cfg, b.calls).codes.live)
  {
    hide Step, After, Outstanding, Claimable, Install, StartSend, Minted, Leavable, Switched;
    MintedLasts(cfg, op, at);
    SendStarts(cfg, asking, t, op, supersedes, at);
    var sent := StartSend(cfg, asking, t, op, supersedes, at).(steps := asking.steps + 1);
    InstallSucceeds(cfg, sent, t, op.id, Minted(cfg, op, at), supersedes, at);
    assert sent.tasks - {t} == sys.tasks;
  }

  /** The steps up to the live code, from any system. */
  lemma FirstSteps(cfg: Config, sys: System, t: TaskId, user: UserId, send: SendInput, at: real)
    requires MaySignIn(cfg, sys, t, user, send, at) && at >= 0.0
    ensures
      var loaded := Next(cfg, sys, FirstFactorLoaded(t, user), at);
      var passed := Next(cfg, loaded, FirstFactorPassed(t, send), at);
      var b := Next(cfg, passed, SendReturned(t, true), at);
      && b == sys.(calls := b.calls, clock := at, steps := sys.steps + 3)
      && Outstanding(cfg, After(cfg, b.calls), send.id, Minted(cfg, SignInClaim(user, sys.users[user], send), at), at)
  {
    hide PassFirstFactor, ReturnSend, Minted, Ready, Claimable, After, Outstanding, DefaultChannel, DestinationFor;
    hide AskSwitch, PassSwitch, EnterCode, LoadOwner, UseProof, SaveContact, SaveEnrol, FindRecovery, AskContact, SaveSession;
    hide AskRecovery, AskEnrol, AskDisable, SaveDisable, RefreshDisable, AskReset, LoadReset, SavePassword, RefreshPassword;
    hide ChangeRow, AskChange, SaveChange, AskPreference, SavePreference;
    var now := sys.(clock := at);
    CodeIsOut(cfg, now, t, user, send, at);
    PassKeepsClock(cfg, LoadFirstFactor(now, t, user).(steps := sys.steps + 1), t, send, at);
  }

  lemma PassKeepsClock(cfg: Config, sys: System, t: TaskId, send: SendInput, at: real)
    ensures var b := PassFirstFactor(cfg, sys, t, send, at); b.clock == sys.clock && b.steps == sys.steps
  {
    hide Answered, DestinationFor, DefaultChannel, NewId;
  }

  /** The steps from a live code to its proof, from any system. */
  lemma CodeStepsProve(cfg: Config, sys: System, t: TaskId, id: ChallengeId, c: Challenge, code: string, at: real, later: real)
    requires Idle(sys, t) && Outstanding(cfg, After(cfg, sys.calls), id, c, at) && at <= later < c.expiresAt && sys.clock == at
    requires (c.channel == Totp ==> c.user in sys.users && sys.users[c.user].secret.Some?) && RightFor(c, id, code, Right)
    ensures
      var b := Next(cfg, Next(cfg, sys, CodeEntered(t, c.purpose, id, code, c.user), later), OwnerLoaded(t, Right), later);
      && Waits(b, t) && b.tasks[t].Proven? && b.tasks[t].c == c
      && b == sys.(calls := b.calls, clock := later, tasks := sys.tasks[t := b.tasks[t]], steps := sys.steps + 2)
      && (b.tasks[t].seen.Some? ==> c.user in sys.users && b.tasks[t].seen == Some(sys.users[c.user]))
      && forall op :: MintsOnly(sys.calls, b.calls, op)
  {
    hide EnterCode, LoadOwner, After, Outstanding, RightFor, UseProof, SaveSession;
    hide AskSwitch, PassSwitch, SaveContact, SaveEnrol, FindRecovery, AskContact, PassFirstFactor, ReturnSend, LoadFirstFactor;
    hide AskRecovery, AskEnrol, AskDisable, SaveDisable, RefreshDisable, AskReset, LoadReset, SavePassword, RefreshPassword;
    hide ChangeRow, AskChange, SaveChange, AskPreference, SavePreference;
    var now := sys.(clock := later);
    CodeIsProven(cfg, now, t, id, c, code, Right, at, later);
    EnterKeepsClock(cfg, now, t, c.purpose, id, code, c.user, later);
  }

  lemma ProofIsUsed(cfg: Config, sys: System, t: TaskId, c: Challenge, at: real)
    requires Waits(sys, t) && sys.tasks[t].Proven? && sys.tasks[t].c == c && c.purpose == SignIn && sys.clock == at
    requires c.user in sys.users && sys.users[c.user].active && sys.users[c.user].enabled
    requires sys.tasks[t].seen.Some? ==> sys.tasks[t].seen == Some(sys.users[c.user])
    ensures
      var sessions := Next(cfg, Next(cfg, sys, ProvenLoaded(t, 0), at), SessionSaved(t), at).log.sessions;
      && |sessions| == |sys.log.sessions| + 1 && sessions[..|sys.log.sessions|] == sys.log.sessions
      && sessions[|sys.log.sessions|].user == c.user && sessions[|sys.log.sessions|].proof.Some?
  {
    hide EnterCode, LoadOwner, AskSwitch, PassSwitch, SaveContact, SaveEnrol, FindRecovery, AskContact, PassFirstFactor, ReturnSend;
    hide AskRecovery, AskEnrol, AskDisable, SaveDisable, RefreshDisable, AskReset, LoadReset, SavePassword, RefreshPassword;
    hide LoadFirstFactor, ChangeRow, AskChange, SaveChange, AskPreference, SavePreference, WithoutExpired;
  }

  lemma EnterKeepsClock(cfg: Config, sys: System, t: TaskId, flow: Purpose, id: ChallengeId, code: string, user: UserId, at: real)
    ensures var b := EnterCode(cfg, sys, t, flow, id, code, user, at); b.clock == sys.clock && b.steps == sys.steps
  {
    hide Answered;
  }

  lemma SignInMints(cfg: Config, user: UserId, row: User, send: SendInput, at: real)
    requires Ready(row)
    ensures var c := Minted(cfg, SignInClaim(user, row, send), at);
      && c.user == user && c.purpose == SignIn && c.expiresAt == at + cfg.codeTtl as real
      && (c.channel == Totp ==> row.secret.Some?) && RightFor(c, send.id, send.code, Right)
  {
  }

  /** The last steps of a sign-in, from a live code to the session. */
  lemma SessionFollows(cfg: Config, users: map<UserId, User>, actions: seq<Moment>, n: nat, t: TaskId, id: ChallengeId, c: Challenge,
                       code: string, at: real, later: real)
    requires n + 4 == |actions| && actions[n] == Moment(CodeEntered(t, SignIn, id, code, c.user), later)
    requires actions[n + 1] == Moment(OwnerLoaded(t, Right), later) && actions[n + 2] == Moment(ProvenLoaded(t, 0), later)
    requires actions[n + 3] == Moment(SessionSaved(t), later)
    requires var sys := Run(cfg, users, actions[..n]);
      && Idle(sys, t) && Outstanding(cfg, After(cfg, sys.calls), id, c, at) && at <= later < c.expiresAt && sys.clock == at
      && c.user in sys.users && sys.users[c.user].active && sys.users[c.user].enabled
      && (c.channel == Totp ==> sys.users[c.user].secret.Some?)
    requires c.purpose == SignIn && RightFor(c, id, code, Right)
    ensures
      var before, sessions := Run(cfg, users, actions[..n]).log.sessions, Run(cfg, users, actions).log.sessions;
      && |sessions| == |before| + 1 && sessions[..|before|] == before
      && sessions[|before|].user == c.user && sessions[|before|].proof.Some?
  {
    hide Next, Run, Outstanding, After, RightFor;
    CodeStepsProve(cfg, Run(cfg, users, actions[..n]), t, id, c, code, at, later);
    RunNext(cfg, users, actions, n);
    RunNext(cfg, users, actions, n + 1);
    ProofIsUsed(cfg, Run(cfg, users, actions[..n + 2]), t, c, later);
    RunNext(cfg, users, actions, n + 2);
    RunNext(cfg, users, actions, n + 3);
    assert actions[..n + 4] == actions;
  }

  /** Signing in works: at every moment of every run, an active account that has two-step
      verification on and can be served by its default method, and whose claim no limit
      refuses, gets a session that rests on a code when the code is right and in time. */
  lemma SignInSucceeds(cfg: Config, users: map<UserId, User>, past: seq<Moment>, t: TaskId, user: UserId, send: SendInput,
                       at: real, later: real)
    requires MaySignIn(cfg, Run(cfg, users, past), t, user, send, at) && at <= later < at + cfg.codeTtl as real
    ensures
      var before := Run(cfg, users, past).log.sessions;
      var sessions := Run(cfg, users, past + SignInRun(t, user, send, send.code, at, later)).log.sessions;
      && |sessions| == |before| + 1 && sessions[..|before|] == before
      && sessions[|before|].user == user && sessions[|before|].proof.Some?
  {
    hide Next, Run, Outstanding, After, Claimable, Ready, NewId, Minted, RightFor, Sound, MintedBy;
    var actions := past + SignInRun(t, user, send, send.code, at, later);
    var sys, n := Run(cfg, users, past), |past|;
    assert actions[..n] == past && actions[..n + 7] == actions;
    EveryRunIsSound(cfg, users, past);
    FirstSteps(cfg, sys, t, user, send, at);
    RunNext(cfg, users, actions, n);
    RunNext(cfg, users, actions, n + 1);
    RunNext(cfg, users, actions, n + 2);
    var c := Minted(cfg, SignInClaim(user, sys.users[user], send), at);
    SignInMints(cfg, user, sys.users[user], send, at);
    SessionFollows(cfg, users, actions, n + 3, t, send.id, c, send.code, at, later);
  }

  // -- Confirming a contact --------------------------------------------------------

  /** The steps of one confirmation: send, code, save. */
  function ContactRun(t: TaskId, user: UserId, channel: Channel, destination: Address, send: SendInput, at: real, later: real): seq<Moment> {
    [Moment(ContactAsked(t, user, channel, destination, send), at), Moment(SendReturned(t, true), at),
     Moment(CodeEntered(t, VerifyContact, send.id, send.code, user), later), Moment(ProvenLoaded(t, 0), later),
     Moment(ContactSaved(t), later)]
  }

  function ContactClaim(user: UserId, channel: Channel, destination: Address, send: SendInput): Operation {
    Claim(send.id, send.code, user, VerifyContact, channel, Some(destination), send.address)
  }

  /** The row once the contact has been confirmed. */
  function Confirmed(row: User, channel: Channel, destination: Address): User {
    ConfirmedRow(row, row, channel, Some(destination))
  }

  /** What a confirmation needs: a free slot, a contact that nobody else has, and limits that
      do not refuse. */
  predicate MayConfirm(cfg: Config, sys: System, t: TaskId, user: UserId, channel: Channel, destination: Address, send: SendInput, at: real) {
    Idle(sys, t) && NewId(sys, send.id) && at >= sys.clock && user in sys.users && channel != Totp && send.configured
    && !Taken(sys.users, user, Confirmed(sys.users[user], channel, destination))
    && Claimable(cfg, After(cfg, sys.calls), ContactClaim(user, channel, destination, send), at)
  }

  lemma ContactIsOut(cfg: Config, sys: System, t: TaskId, user: UserId, channel: Channel, destination: Address, send: SendInput, at: real)
    requires MayConfirm(cfg, sys, t, user, channel, destination, send, at) && at >= 0.0
    ensures
      var asked := Next(cfg, sys, ContactAsked(t, user, channel, destination, send), at);
      var b := Next(cfg, asked, SendReturned(t, true), at);
      && b == sys.(calls := b.calls, clock := at, steps := sys.steps + 2) && MintsOnly(sys.calls, b.calls, ContactClaim(user, channel, destination, send))
      && Outstanding(cfg, After(cfg, b.calls), send.id, Minted(cfg, ContactClaim(user, channel, destination, send), at), at)
  {
    hide MintsOnly, ReturnSend, Minted, Claimable, After, Outstanding, WasMinted, StartSend, Taken, Perform, Confirmed;
    var op := ContactClaim(user, channel, destination, send);
    var now := sys.(clock := at);
    SentIsOut(cfg, now, now, t, op, None, at);
    SendKeepsClock(cfg, now, t, op, at);
    ContactActions(cfg, now, t, user, channel, destination, send, at);
    ContactActions(cfg, StartSend(cfg, now, t, op, None, at).(steps := sys.steps + 1), t, user, channel, destination, send, at);
  }

  lemma ContactActions(cfg: Config, sys: System, t: TaskId, user: UserId, channel: Channel, destination: Address, send: SendInput, at: real)
    ensures Perform(cfg, sys, ContactAsked(t, user, channel, destination, send), at) == AskContact(cfg, sys, t, user, channel, destination, send, at)
    ensures Perform(cfg, sys, SendReturned(t, true), at) == ReturnSend(cfg, sys, t, true, at)
  {
    hide AskContact, ReturnSend;
  }

  lemma SendKeepsClock(cfg: Config, sys: System, t: TaskId, op: Operation, at: real)
    requires op.Claim?
    ensures var b := StartSend(cfg, sys, t, op, None, at); b.clock == sys.clock && b.steps == sys.steps
  {
    hide Answered;
  }

  lemma ContactIsSaved(cfg: Config, sys: System, t: TaskId, user: UserId, id: ChallengeId, c: Challenge, code: string, at: real, later: real)
    requires Idle(sys, t) && Outstanding(cfg, After(cfg, sys.calls), id, c, at) && at <= later < c.expiresAt && sys.clock == at
    requires user in sys.users && c.user == user && c.purpose == VerifyContact && c.channel != Totp && c.destination.Some?
    requires c.digest == Some(Mac(id, code)) && !Taken(sys.users, user, Confirmed(sys.users[user], c.channel, c.destination.value))
    ensures
      var entered := Next(cfg, sys, CodeEntered(t, VerifyContact, id, code, user), later);
      var used := Next(cfg, entered, ProvenLoaded(t, 0), later);
      var b := Next(cfg, used, ContactSaved(t), later);
      && b == sys.(calls := b.calls, clock := later, steps := sys.steps + 3, log := b.log,
                   users := sys.users[user := Confirmed(sys.users[user], c.channel, c.destination.value)])
      && b.log.sessions == sys.log.sessions && forall op :: MintsOnly(sys.calls, b.calls, op)
  {
    hide EnterCode, LoadOwner, After, Outstanding, Taken, ConfirmedRow, UseProof, SaveContact;
    hide AskSwitch, PassSwitch, SaveEnrol, FindRecovery, AskContact, PassFirstFactor, ReturnSend, LoadFirstFactor, SaveSession;
    hide AskRecovery, AskEnrol, AskDisable, SaveDisable, RefreshDisable, AskReset, LoadReset, SavePassword, RefreshPassword;
    hide ChangeRow, AskChange, SaveChange, AskPreference, SavePreference;
    var now := sys.(clock := later);
    CodeIsProven(cfg, now, t, id, c, code, Wrong, at, later);
    EnterKeepsClock(cfg, now, t, VerifyContact, id, code, user, later);
    var entered := EnterCode(cfg, now, t, VerifyContact, id, code, user, later);
    assert entered.tasks == sys.tasks[t := entered.tasks[t]];
    assert entered.tasks - {t} == sys.tasks;
    ContactIsUsed(cfg, entered.(steps := sys.steps + 1), t, c, later);
  }

  /** A proven contact is written, on the row as it is. */
  lemma ContactIsUsed(cfg: Config, sys: System, t: TaskId, c: Challenge, at: real)
    requires Waits(sys, t) && sys.tasks[t].Proven? && sys.tasks[t].c == c && c.purpose == VerifyContact && sys.clock == at
    requires c.user in sys.users && c.channel != Totp && c.destination.Some?
    requires sys.tasks[t].seen.Some? ==> sys.tasks[t].seen == Some(sys.users[c.user])
    requires !Taken(sys.users, c.user, Confirmed(sys.users[c.user], c.channel, c.destination.value))
    ensures
      var b := Next(cfg, Next(cfg, sys, ProvenLoaded(t, 0), at), ContactSaved(t), at);
      && b == sys.(tasks := sys.tasks - {t}, steps := sys.steps + 2, log := b.log,
                   users := sys.users[c.user := Confirmed(sys.users[c.user], c.channel, c.destination.value)])
      && b.log.sessions == sys.log.sessions
  {
    hide EnterCode, LoadOwner, Taken, ConfirmedRow;
    hide AskSwitch, PassSwitch, SaveEnrol, FindRecovery, AskContact, PassFirstFactor, ReturnSend, LoadFirstFactor, SaveSession;
    hide AskRecovery, AskEnrol, AskDisable, SaveDisable, RefreshDisable, AskReset, LoadReset, SavePassword, RefreshPassword;
    hide ChangeRow, AskChange, SaveChange, AskPreference, SavePreference;
    var confirming := Confirming(c.user, sys.tasks[t].proof, c.channel, c.destination, sys.users[c.user]);
    assert sys.tasks[t := confirming] - {t} == sys.tasks - {t};
  }

  /** Confirming works: from any moment, a confirmation that no limit refuses and whose code
      is entered in time writes the contact, and turns two-step verification on. */
  lemma ContactConfirms(cfg: Config, users: map<UserId, User>, past: seq<Moment>, t: TaskId, user: UserId, channel: Channel,
                        destination: Address, send: SendInput, at: real, later: real)
    requires MayConfirm(cfg, Run(cfg, users, past), t, user, channel, destination, send, at) && at <= later < at + cfg.codeTtl as real
    ensures
      var a, b := Run(cfg, users, past), Run(cfg, users, past + ContactRun(t, user, channel, destination, send, at, later));
      && b.users == a.users[user := Confirmed(a.users[user], channel, destination)] && b.tasks == a.tasks
      && b.clock == later && b.log.sessions == a.log.sessions && b.tokens == a.tokens
      && DestinationFor(b.users[user], channel) == Some(destination) && b.users[user].enabled
      && MintsOnly(a.calls, b.calls, ContactClaim(user, channel, destination, send))
  {
    hide MintsOnly, Next, Run, Outstanding, After, Claimable, NewId, Sound, MintedBy, Taken;
    var actions := past + ContactRun(t, user, channel, destination, send, at, later);
    var sys, n := Run(cfg, users, past), |past|;
    assert actions[..n] == past && actions[..n + 5] == actions;
    EveryRunIsSound(cfg, users, past);
    ContactIsOut(cfg, sys, t, user, channel, destination, send, at);
    RunNext(cfg, users, actions, n);
    RunNext(cfg, users, actions, n + 1);
    var c := Minted(cfg, ContactClaim(user, channel, destination, send), at);
    ContactIsSaved(cfg, Run(cfg, users, actions[..n + 2]), t, user, send.id, c, send.code, at, later);
    RunNext(cfg, users, actions, n + 2);
    RunNext(cfg, users, actions, n + 3);
    RunNext(cfg, users, actions, n + 4);
    MintsOnlyOnwards(sys.calls, Run(cfg, users, actions[..n + 2]).calls, Run(cfg, users, actions).calls, ContactClaim(user, channel, destination, send));
  }

  // -- Promises that are lost ------------------------------------------------------

  /** At the start nothing refuses a first confirmation. */
  lemma NewAccountMayConfirm(cfg: Config, users: map<UserId, User>, t: TaskId, user: UserId, channel: Channel, destination: Address,
                             send: SendInput, at: real)
    requires user in users && channel != Totp && send.configured && at >= 0.0
    requires !Taken(users, user, Confirmed(users[user], channel, destination))
    ensures MayConfirm(cfg, Run(cfg, users, []), t, user, channel, destination, send, at)
  {
    hide Taken, ConfirmedRow, Dropped;
    assert Prune(cfg, EMPTY, at) == EMPTY;
    assert Since([], at - cfg.window as real) == [];
  }

  /** A request that the account cannot serve ends with nothing asked of the store and no
      session: there is nowhere to send a code. */
  lemma UnreadyIsRefused(cfg: Config, sys: System, t: TaskId, send: SendInput, at: real)
    requires Waits(sys, t) && sys.tasks[t].Identified? && NewId(sys, send.id)
    requires var row := sys.tasks[t].row; row.active && row.enabled && !Ready(row)
    ensures PassFirstFactor(cfg, sys, t, send, at) == End(sys, t)
  {
  }

  /** The profile update makes an authenticator the default of an account that has none: from
      any moment at which such an account may confirm a mobile number, confirming it and then
      saving that preference leaves an account that has two-step verification on and cannot
      be served. */
  lemma PreferenceStrands(cfg: Config, users: map<UserId, User>, past: seq<Moment>, t: TaskId, user: UserId, destination: Address,
                          send: SendInput, at: real, later: real)
    requires MayConfirm(cfg, Run(cfg, users, past), t, user, Sms, destination, send, at) && at <= later < at + cfg.codeTtl as real
    requires Run(cfg, users, past).users[user].secret.None?
    ensures
      var saved := [Moment(PreferenceAsked(t, user, Totp), later), Moment(PreferenceSaved(t), later)];
      var now := Run(cfg, users, past + ContactRun(t, user, Sms, destination, send, at, later) + saved).users;
      user in now && now[user].enabled && !Ready(now[user])
  {
    var contact := ContactRun(t, user, Sms, destination, send, at, later);
    var saved := [Moment(PreferenceAsked(t, user, Totp), later), Moment(PreferenceSaved(t), later)];
    var actions, n := past + contact + saved, |past + contact|;
    assert actions[..n] == past + contact && actions[..n + 2] == actions;
    ContactConfirms(cfg, users, past, t, user, Sms, destination, send, at, later);
    RunNext(cfg, users, actions, n);
    RunNext(cfg, users, actions, n + 1);
    hide Run, NewId, Claimable, Taken, Ready;
    DefaultIsSaved(cfg, Run(cfg, users, past + contact), t, user, later);
  }

  lemma DefaultIsSaved(cfg: Config, sys: System, t: TaskId, user: UserId, at: real)
    requires Idle(sys, t) && sys.clock == at && user in sys.users && sys.users[user].mobile.Some? && sys.users[user].secret.None?
    ensures
      var now := Next(cfg, Next(cfg, sys, PreferenceAsked(t, user, Totp), at), PreferenceSaved(t), at).users;
      user in now && now[user].enabled == sys.users[user].enabled && !Ready(now[user])
  {
    hide AskSwitch, PassSwitch, SaveContact, SaveEnrol, FindRecovery, AskContact, PassFirstFactor, ReturnSend, LoadFirstFactor;
    hide AskRecovery, AskEnrol, AskDisable, SaveDisable, RefreshDisable, AskReset, LoadReset, SavePassword, RefreshPassword;
    hide ChangeRow, AskChange, SaveChange, SaveSession, EnterCode, LoadOwner, UseProof;
  }

  /** A sign-in that overlaps turning two-step verification on: a request that has loaded the
      row while it was off gets its session without a code although the account has it on by
      then. */
  lemma StaleRowSkipsCode(cfg: Config, users: map<UserId, User>, past: seq<Moment>, t: TaskId, other: TaskId, user: UserId,
                          channel: Channel, destination: Address, send: SendInput, next: SendInput, at: real, later: real)
    requires at <= later < at + cfg.codeTtl as real && t != other && Idle(Run(cfg, users, past), t)
    requires user in Run(cfg, users, past).users
    requires var row := Run(cfg, users, past).users[user]; row.active && !row.enabled
    requires MayConfirm(cfg, Run(cfg, users, past), other, user, channel, destination, send, at)
    requires NewId(Run(cfg, users, past), next.id) && next.id != send.id
    ensures
      var confirmed := past + [Moment(FirstFactorLoaded(t, user), at)] + ContactRun(other, user, channel, destination, send, at, later);
      var a := Run(cfg, users, past);
      var b := Run(cfg, users, confirmed + [Moment(FirstFactorPassed(t, next), later), Moment(SessionSaved(t), later)]);
      && user in b.users && b.users[user].enabled
      && b.log.sessions == a.log.sessions + [Session(user, |past|, None, |past| + 7)]
  {
    hide Claimable, Taken, Confirmed, NewId, Next, Run;
    var loaded := past + [Moment(FirstFactorLoaded(t, user), at)];
    var confirmed := loaded + ContactRun(other, user, channel, destination, send, at, later);
    var actions := confirmed + [Moment(FirstFactorPassed(t, next), later), Moment(SessionSaved(t), later)];
    var n := |confirmed|;
    assert actions[..n] == confirmed && actions[..n + 2] == actions;
    ConfirmedMeanwhile(cfg, users, past, t, other, user, channel, destination, send, next.id, at, later);
    StepsTaken(cfg, users, confirmed);
    hide MayConfirm;
    RunNext(cfg, users, actions, n);
    RunNext(cfg, users, actions, n + 1);
    StaleIsIssued(cfg, Run(cfg, users, confirmed), t, next, later);
  }

  /** While a request holds the row it has loaded, another turns two-step verification on. */
  lemma ConfirmedMeanwhile(cfg: Config, users: map<UserId, User>, past: seq<Moment>, t: TaskId, other: TaskId, user: UserId,
                           channel: Channel, destination: Address, send: SendInput, next: ChallengeId, at: real, later: real)
    requires at <= later < at + cfg.codeTtl as real && t != other && Idle(Run(cfg, users, past), t)
    requires user in Run(cfg, users, past).users && NewId(Run(cfg, users, past), next) && next != send.id
    requires MayConfirm(cfg, Run(cfg, users, past), other, user, channel, destination, send, at)
    ensures
      var a, b := Run(cfg, users, past), Run(cfg, users, past + [Moment(FirstFactorLoaded(t, user), at)] + ContactRun(other, user, channel, destination, send, at, later));
      && Waits(b, t) && b.tasks[t] == Identified(user, a.users[user], |past|) && NewId(b, next) && b.clock == later
      && user in b.users && b.users[user].enabled && b.log.sessions == a.log.sessions
  {
    hide Claimable, Taken, Confirmed, NewId, Next;
    var loaded := past + [Moment(FirstFactorLoaded(t, user), at)];
    var a := Run(cfg, users, past);
    assert loaded[..|past|] == past && loaded[..|past| + 1] == loaded;
    StepsTaken(cfg, users, past);
    RunNext(cfg, users, loaded, |past|);
    hide Run;
    RowIsLoaded(cfg, a, t, user, at);
    StillMayConfirm(cfg, a, Run(cfg, users, loaded), other, user, channel, destination, send, at);
    ContactConfirms(cfg, users, loaded, other, user, channel, destination, send, at, later);
    var confirmed := loaded + ContactRun(other, user, channel, destination, send, at, later);
    StaysNew(a, Run(cfg, users, loaded), ContactClaim(user, channel, destination, send), next);
    StaysNew(Run(cfg, users, loaded), Run(cfg, users, confirmed), ContactClaim(user, channel, destination, send), next);
  }

  lemma StillMayConfirm(cfg: Config, a: System, b: System, t: TaskId, user: UserId, channel: Channel, destination: Address,
                        send: SendInput, at: real)
    requires MayConfirm(cfg, a, t, user, channel, destination, send, at)
    requires b.calls == a.calls && b.users == a.users && b.clock == at && Idle(b, t)
    ensures MayConfirm(cfg, b, t, user, channel, destination, send, at)
  {
    hide Claimable, Taken, Confirmed, WasMinted;
  }

  lemma RowIsLoaded(cfg: Config, sys: System, t: TaskId, user: UserId, at: real)
    requires Idle(sys, t) && at >= sys.clock && user in sys.users
    ensures Next(cfg, sys, FirstFactorLoaded(t, user), at)
      == Begin(sys, t, Identified(user, sys.users[user], sys.steps)).(clock := at, steps := sys.steps + 1)
  {
  }

  lemma StaleIsIssued(cfg: Config, sys: System, t: TaskId, send: SendInput, at: real)
    requires Waits(sys, t) && sys.tasks[t].Identified? && NewId(sys, send.id) && sys.clock == at
    requires var row := sys.tasks[t].row; row.active && !row.enabled
    ensures
      var Identified(user, row, loadedAt) := sys.tasks[t];
      var b := Next(cfg, Next(cfg, sys, FirstFactorPassed(t, send), at), SessionSaved(t), at);
      b.users == sys.users && b.log.sessions == sys.log.sessions + [Session(user, loadedAt, None, sys.steps + 1)]
  {
    hide AskSwitch, PassSwitch, SaveContact, SaveEnrol, FindRecovery, AskContact, ReturnSend, LoadFirstFactor, StartLogin;
    hide AskRecovery, AskEnrol, AskDisable, SaveDisable, RefreshDisable, AskReset, LoadReset, SavePassword, RefreshPassword;
    hide ChangeRow, AskChange, SaveChange, AskPreference, SavePreference, EnterCode, LoadOwner, UseProof, WasMinted;
  }

  const NEWCOMER := User(true, false, Unset, Some("ada@example.org"), None, None, Some("password"))
  const SEND := SendInput(1, "123456", None, true)
  const NEXT_SEND := SendInput(2, "654321", None, true)
  const NUMBER := "+36301234567"

  /** Both runs, from a new account: seven steps strand it, and eight steps sign it in without
      a code while it has two-step verification on. */
  lemma LostPromises(cfg: Config)
    ensures
      var users := map[1 := NEWCOMER];
      var contact := ContactRun(0, 1, Sms, NUMBER, SEND, 0.0, 0.0);
      Fresh(users) && !AllReady(Run(cfg, users, contact + [Moment(PreferenceAsked(0, 1, Totp), 0.0), Moment(PreferenceSaved(0), 0.0)]).users)
    ensures
      var users := map[1 := NEWCOMER];
      var contact := ContactRun(0, 1, Sms, NUMBER, SEND, 0.0, 0.0);
      var sys := Run(cfg, users, [Moment(FirstFactorLoaded(5, 1), 0.0)] + contact + [Moment(FirstFactorPassed(5, NEXT_SEND), 0.0), Moment(SessionSaved(5), 0.0)]);
      1 in sys.users && sys.users[1].enabled && sys.log.sessions == [Session(1, 0, None, 7)]
  {
    hide Next;
    var users := map[1 := NEWCOMER];
    var contact := ContactRun(0, 1, Sms, NUMBER, SEND, 0.0, 0.0);
    NewAccountMayConfirm(cfg, users, 0, 1, Sms, NUMBER, SEND, 0.0);
    assert Run(cfg, users, []) == Start(users);
    assert [] + contact == contact && [] + [Moment(FirstFactorLoaded(5, 1), 0.0)] == [Moment(FirstFactorLoaded(5, 1), 0.0)];
    assert NewId(Run(cfg, users, []), NEXT_SEND.id);
    hide Run, Taken, Claimable, NewId;
    PreferenceStrands(cfg, users, [], 0, 1, NUMBER, SEND, 0.0, 0.0);
    StaleRowSkipsCode(cfg, users, [], 5, 0, 1, Sms, NUMBER, SEND, NEXT_SEND, 0.0, 0.0);
  }
}
