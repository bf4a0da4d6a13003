/** More that is not refused: nobody is shut out for good, a sign-in can change its method, and
    a forgotten password can be set anew, from any moment of any run. */
module AccountsProgress {
  import opened Wrappers
  import opened Otp
  import opened OtpLifecycle
  import opened Accounts
  import opened AccountsProofs
  import opened AccountsSettings
  import opened AccountsSignIn

  // -- Waiting ---------------------------------------------------------------------

  /** Nothing a request is measured by has been counted after `since`. */
  predicate RestedFor(l: Limits, r: Request, since: real) {
    var group := GroupOf(r.purpose);
    && ((group, r.user, r.channel) in l.lastSend ==> l.lastSend[(group, r.user, r.channel)] <= since)
    && CountedBy(Events(l.sends, (group, r.user)), since)
    && (r.destination.Some? ==> CountedBy(Events(l.destinationSends, (r.channel, r.destination.value)), since))
    && (r.address.Some? ==> CountedBy(Events(l.addressSends, r.address.value), since))
  }

  predicate CountedBy(q: seq<real>, since: real) {
    forall i :: 0 <= i < |q| ==> q[i] <= since
  }

  /** The two requests are measured by something they share. */
  predicate Shares(q: Request, r: Request) {
    || (GroupOf(q.purpose) == GroupOf(r.purpose) && q.user == r.user)
    || (q.channel == r.channel && q.destination.Some? && q.destination == r.destination)
    || (q.address.Some? && q.address == r.address)
  }

  lemma {:induction false} DroppedRests(q: seq<real>, cutoff: real, since: real)
    requires CountedBy(q, since)
    ensures CountedBy(Dropped(q, cutoff), since) && (since < cutoff ==> Dropped(q, cutoff) == [])
  {
    if q != [] {
      DroppedRests(q[1..], cutoff, since);
    }
  }

  lemma EventsRest<K>(store: map<K, seq<real>>, key: K, cutoff: real, since: real)
    requires CountedBy(Events(store, key), since)
    ensures CountedBy(Events(PruneEvents(store, cutoff), key), since)
    ensures since < cutoff ==> Events(PruneEvents(store, cutoff), key) == []
  {
    DroppedRests(Events(store, key), cutoff, since);
  }

  lemma PruneRests(cfg: Config, l: Limits, r: Request, at: real, since: real)
    requires RestedFor(l, r, since)
    ensures RestedFor(PruneLimits(cfg, l, at), r, since)
  {
    var cutoff := at - cfg.window as real;
    EventsRest(l.sends, (GroupOf(r.purpose), r.user), at - DAY as real, since);
    if r.destination.Some? {
      EventsRest(l.destinationSends, (r.channel, r.destination.value), cutoff, since);
    }
    if r.address.Some? {
      EventsRest(l.addressSends, r.address.value, cutoff, since);
    }
    hide PruneEvents, CountedBy, Events;
  }

  lemma RestedIsNotRefused(cfg: Config, l: Limits, r: Request, at: real, since: real)
    requires RestedFor(l, r, since) && LongAfter(cfg, since, at)
    ensures Refusal(cfg, PruneLimits(cfg, l, at), r, at).None?
  {
    hide PruneEvents, CountedBy, Events, DailyLimit;
    var pruned, cutoff := PruneLimits(cfg, l, at), at - cfg.window as real;
    assert Since([], cutoff) == [];
    assert CooldownRefusal(cfg, pruned, r, at).None?;
    EventsRest(l.sends, (GroupOf(r.purpose), r.user), at - DAY as real, since);
    if r.destination.Some? {
      EventsRest(l.destinationSends, (r.channel, r.destination.value), cutoff, since);
    }
    if r.address.Some? {
      EventsRest(l.addressSends, r.address.value, cutoff, since);
    }
    hide PruneLimits, CooldownRefusal;
  }

  lemma RecordedRests(cfg: Config, l: Limits, q: Request, r: Request, at: real, since: real)
    requires RestedFor(l, r, since) && (Shares(q, r) ==> at <= since)
    ensures RestedFor(Recorded(cfg, l, q, at), r, since)
  {
    hide DailyCapacity;
  }

  lemma StepRests(cfg: Config, s: State, op: Operation, at: real, r: Request, since: real)
    requires RestedFor(s.limits, r, since) && (Mints(op) && Shares(RequestOf(op), r) ==> at <= since)
    ensures RestedFor(Step(cfg, s, op, at).state.limits, r, since)
  {
    PruneRests(cfg, s.limits, r, at, since);
    if Mints(op) {
      RecordedRests(cfg, PruneLimits(cfg, s.limits, at), RequestOf(op), r, at, since);
    }
    hide PruneLimits, Recorded, ClaimRefusal, Minted, VerifyRefusal, Judge, CountedBy, Events;
  }

  /** A run of calls that share nothing with the request, or lie before `since`. */
  lemma {:induction false} CallsRest(cfg: Config, calls: seq<Call>, n: nat, r: Request, since: real)
    requires n <= |calls| && RestedFor(After(cfg, calls[..n]).limits, r, since)
    requires forall i :: n <= i < |calls| && Mints(calls[i].op) ==> calls[i].at <= since || !Shares(RequestOf(calls[i].op), r)
    ensures RestedFor(After(cfg, calls).limits, r, since)
  {
    hide Step, RestedFor, Shares;
    if n == |calls| {
      assert calls[..n] == calls;
    } else {
      var last := |calls| - 1;
      assert calls[..last][..n] == calls[..n];
      CallsRest(cfg, calls[..last], n, r, since);
      StepRests(cfg, After(cfg, calls[..last]), calls[last].op, calls[last].at, r, since);
    }
  }

  /** In every run everything counted was counted by now. */
  lemma RunRests(cfg: Config, users: map<UserId, User>, actions: seq<Moment>, r: Request)
    ensures var sys := Run(cfg, users, actions);
      sys.clock >= 0.0 && RestedFor(After(cfg, sys.calls).limits, r, sys.clock) && LocksEnd(cfg, After(cfg, sys.calls).guard, sys.clock)
  {
    hide Run, Sound, MintedBy, Step;
    var sys := Run(cfg, users, actions);
    EveryRunIsSound(cfg, users, actions);
    assert sys.calls[..0] == [];
    CallsRest(cfg, sys.calls, 0, r, sys.clock);
    GuardRests(cfg, sys.calls, sys.clock);
  }

  /** Every lock ends within its length from now. */
  predicate LocksEnd(cfg: Config, g: Guard, now: real) {
    forall u :: u in g.locks ==> g.locks[u] <= now + cfg.lockout as real
  }

  lemma {:induction false} GuardRests(cfg: Config, calls: seq<Call>, now: real)
    requires forall i :: 0 <= i < |calls| ==> calls[i].at <= now
    ensures LocksEnd(cfg, After(cfg, calls).guard, now)
  {
    hide Step, LocksEnd;
    if calls == [] {
      assert LocksEnd(cfg, EMPTY.guard, now) by { NobodyIsLocked(cfg, now); }
    } else {
      var n := |calls| - 1;
      GuardRests(cfg, calls[..n], now);
      LocksStep(cfg, After(cfg, calls[..n]), calls[n].op, calls[n].at, now);
    }
  }

  lemma NobodyIsLocked(cfg: Config, now: real)
    ensures LocksEnd(cfg, EMPTY.guard, now)
  {
  }

  lemma LocksStep(cfg: Config, s: State, op: Operation, at: real, now: real)
    requires LocksEnd(cfg, s.guard, now) && at <= now
    ensures LocksEnd(cfg, Step(cfg, s, op, at).state.guard, now)
  {
    hide PruneCodes, PruneLimits, PruneEvents, Recorded, ClaimRefusal, VerifyRefusal, Minted, Judge, AttemptSpent, WindowRefusal;
    if op.Verify? {
      LooksUp(Prune(cfg, s, at), op, at);
    }
  }

  lemma LooksUp(s: State, op: Operation, at: real)
    requires op.Verify?
    ensures VerifyRefusal(s, op, at).None? ==> op.id in s.codes.live
  {
  }

  /** Long enough for every window, cooldown, allowance and lock to have run out. */
  predicate LongAfter(cfg: Config, since: real, at: real) {
    && at - since > cfg.window as real && at - since >= cfg.cooldown as real
    && at - since > DAY as real && at - since >= cfg.lockout as real
  }

  /** Whoever has waited that long is refused nothing. */
  lemma WaitedIsClaimable(cfg: Config, s: State, op: Operation, since: real, at: real)
    requires Mints(op) && RestedFor(s.limits, RequestOf(op), since) && LongAfter(cfg, since, at) && at >= 0.0
    requires op.ClaimTotp? ==> LocksEnd(cfg, s.guard, since)
    ensures Claimable(cfg, s, op, at)
  {
    RestedIsNotRefused(cfg, s.limits, RequestOf(op), at, since);
    hide PruneLimits, PruneCodes, Refusal, RestedFor;
  }

  /** Nobody is shut out for good: from any moment of any run, once the windows, the cooldown,
      a day and the lock have run out, an active account that has two-step verification on and
      can be served by its default method gets its session. */
  lemma NobodyIsShutOut(cfg: Config, users: map<UserId, User>, past: seq<Moment>, t: TaskId, user: UserId, send: SendInput,
                        at: real, later: real)
    requires var sys := Run(cfg, users, past);
      && LongAfter(cfg, sys.clock, at) && at <= later < at + cfg.codeTtl as real
      && Idle(sys, t) && NewId(sys, send.id) && send.configured && user in sys.users
      && sys.users[user].active && sys.users[user].enabled && Ready(sys.users[user])
    ensures
      var before := Run(cfg, users, past).log.sessions;
      var sessions := Run(cfg, users, past + SignInRun(t, user, send, send.code, at, later)).log.sessions;
      && |sessions| == |before| + 1 && sessions[..|before|] == before
      && sessions[|before|].user == user && sessions[|before|].proof.Some?
  {
    var sys := Run(cfg, users, past);
    hide Run, Claimable, NewId, Ready, RestedFor, LocksEnd, After;
    var op := SignInClaim(user, sys.users[user], send);
    RunRests(cfg, users, past, RequestOf(op));
    WaitedIsClaimable(cfg, After(cfg, sys.calls), op, sys.clock, at);
    SignInSucceeds(cfg, users, past, t, user, send, at, later);
  }

  // -- Switching the method --------------------------------------------------------

  /** The steps of a switch and of the sign-in it is part of. */
  function SwitchRun(t: TaskId, user: UserId, held: ChallengeId, channel: Channel, send: SendInput, at: real, later: real): seq<Moment> {
    [Moment(SwitchAsked(t, held), at), Moment(SwitchLoaded(t, channel, send), at), Moment(SendReturned(t, true), at),
     Moment(CodeEntered(t, SignIn, send.id, send.code, user), later), Moment(OwnerLoaded(t, Right), later),
     Moment(ProvenLoaded(t, 0), later), Moment(SessionSaved(t), later)]
  }

  /** What a switch needs: a live sign-in challenge, an account that can be served by the other
      method, and limits that do not refuse. */
  predicate MaySwitch(cfg: Config, sys: System, t: TaskId, user: UserId, held: ChallengeId, channel: Channel, send: SendInput, at: real) {
    var live := After(cfg, sys.calls).codes.live;
    && Idle(sys, t) && NewId(sys, send.id) && at >= sys.clock && user in sys.users && sys.users[user].active && sys.users[user].enabled
    && held in live && live[held].user == user && live[held].purpose == SignIn && live[held].expiresAt > at
    && Serves(sys.users[user], channel) && (channel == Totp || send.configured)
    && Claimable(cfg, After(cfg, sys.calls), LoginClaim(user, sys.users[user], channel, send), at)
  }

  /** The challenge is read, and nothing else has changed for the switch. */
  lemma LookFinds(cfg: Config, calls: seq<Call>, held: ChallengeId, op: Operation, at: real)
    requires var live := After(cfg, calls).codes.live; held in live && live[held].purpose == SignIn && live[held].expiresAt > at
    requires Claimable(cfg, After(cfg, calls), op, at)
    ensures
      var look, s := RequireLive(held, SignIn), After(cfg, calls);
      var looked := After(cfg, calls + [Call(look, at)]);
      && Step(cfg, s, look, at).answer == Live(s.codes.live[held])
      && held in looked.codes.live && looked.codes.live[held] == s.codes.live[held] && Claimable(cfg, looked, op, at)
  {
    AfterOne(cfg, calls, Call(RequireLive(held, SignIn), at));
    PruneKeeps(cfg, After(cfg, calls), at);
    PruneTwice(cfg, After(cfg, calls), at);
    hide Prune, ClaimRefusal, After;
  }

  /** A claim of either kind, begun. */
  function StartClaim(cfg: Config, sys: System, t: TaskId, op: Operation, supersedes: Option<ChallengeId>, at: real): System
    requires Mints(op)
  {
    if op.ClaimTotp? then StartTotp(cfg, sys, t, op, supersedes, at) else StartSend(cfg, sys, t, op, supersedes, at)
  }

  /** Whichever kind it is, its challenge is live once the send has returned. */
  lemma ClaimIsOut(cfg: Config, sys: System, asking: System, t: TaskId, op: Operation, supersedes: Option<ChallengeId>, at: real)
    requires Mints(op) && (op.ClaimTotp? ==> op.ttl.None?) && (op.Claim? ==> op.channel != Totp)
    requires Claimable(cfg, After(cfg, sys.calls), op, at) && at >= 0.0 && Idle(sys, t)
    requires asking == sys.(tasks := asking.tasks, steps := asking.steps) && asking.tasks - {t} == sys.tasks
    requires Leavable(After(cfg, sys.calls), supersedes, Minted(cfg, op, at), at)
    ensures
      var b := ReturnSend(cfg, StartClaim(cfg, asking, t, op, supersedes, at).(steps := asking.steps + 1), t, true, at);
      && b == sys.(calls := b.calls, steps := asking.steps + 1, switched := Switched(sys.switched, supersedes))
      && MintsOnly(sys.calls, b.calls, op) && Outstanding(cfg, After(cfg, b.calls), op.id, Minted(cfg, op, at), at)
      && (supersedes.Some? && supersedes.value != op.id ==> supersedes.value !in After(cfg, b.calls).codes.live)
  {
    hide ReturnSend, StartTotp, StartSend, After, Minted, Leavable, Switched, MintsOnly, Claimable, Outstanding;
    if op.ClaimTotp? {
      TotpIsOut(cfg, sys, asking, t, op, supersedes, at);
    } else {
      SentIsOut(cfg, sys, asking, t, op, supersedes, at);
    }
  }

  /** The account is served by the method it asks for. */
  lemma LoginStarted(cfg: Config, sys: System, t: TaskId, user: UserId, row: User, channel: Channel, supersedes: Option<ChallengeId>,
                     send: SendInput, at: real)
    requires Serves(row, channel) && (channel == Totp || send.configured)
    ensures StartLogin(cfg, sys, t, user, row, Some(channel), supersedes, send, at)
      == StartClaim(cfg, sys, t, LoginClaim(user, row, channel, send), supersedes, at)
  {
    hide StartTotp, StartSend;
  }

  /** The switch: the new code is live and the old one is gone. */
  lemma SwitchIsOut(cfg: Config, sys: System, t: TaskId, user: UserId, held: ChallengeId, channel: Channel, send: SendInput, at: real)
    requires MaySwitch(cfg, sys, t, user, held, channel, send, at) && at >= 0.0 && sys.clock == at
    ensures
      var asked := AskSwitch(cfg, sys, t, held, at).(steps := sys.steps + 1);
      var passed := PassSwitch(cfg, asked, t, channel, send, at).(steps := sys.steps + 2);
      var b := ReturnSend(cfg, passed, t, true, at);
      && b == sys.(calls := b.calls, steps := sys.steps + 2, switched := sys.switched + [held])
      && Outstanding(cfg, After(cfg, b.calls), send.id, Minted(cfg, LoginClaim(user, sys.users[user], channel, send), at), at)
      && (held != send.id ==> held !in After(cfg, b.calls).codes.live)
  {
    hide ReturnSend, StartClaim, StartLogin, After, Minted, Step, Claimable, Outstanding, WasMinted, MintsOnly;
    var op := LoginClaim(user, sys.users[user], channel, send);
    var look := RequireLive(held, SignIn);
    LookFinds(cfg, sys.calls, held, op, at);
    MintedLasts(cfg, op, at);
    var looked := Asked(sys, look, at);
    var asked := Begin(looked, t, Switching(held, user)).(steps := sys.steps + 1);
    AskedIsNew(sys, look, at, send.id);
    LoginStarted(cfg, asked, t, user, sys.users[user], channel, Some(held), send, at);
    assert asked.tasks - {t} == looked.tasks;
    ClaimIsOut(cfg, looked, asked, t, op, Some(held), at);
  }

  lemma AskedIsNew(sys: System, op: Operation, at: real, id: ChallengeId)
    requires NewId(sys, id) && !Mints(op)
    ensures NewId(Asked(sys, op, at), id)
  {
  }

  lemma SwitchKeepsClock(cfg: Config, sys: System, t: TaskId, held: ChallengeId, channel: Channel, send: SendInput, at: real)
    ensures var b := AskSwitch(cfg, sys, t, held, at); b.clock == sys.clock && b.steps == sys.steps
    ensures var b := PassSwitch(cfg, sys, t, channel, send, at); b.clock == sys.clock && b.steps == sys.steps
  {
    hide Answered, DestinationFor, NewId;
  }

  lemma SwitchSteps(cfg: Config, sys: System, t: TaskId, user: UserId, held: ChallengeId, channel: Channel, send: SendInput, at: real)
    requires MaySwitch(cfg, sys, t, user, held, channel, send, at) && at >= 0.0
    ensures
      var asked := Next(cfg, sys, SwitchAsked(t, held), at);
      var passed := Next(cfg, asked, SwitchLoaded(t, channel, send), at);
      var b := Next(cfg, passed, SendReturned(t, true), at);
      && b == sys.(calls := b.calls, clock := at, steps := sys.steps + 3, switched := sys.switched + [held])
      && Outstanding(cfg, After(cfg, b.calls), send.id, Minted(cfg, LoginClaim(user, sys.users[user], channel, send), at), at)
      && (held != send.id ==> held !in After(cfg, b.calls).codes.live)
  {
    hide AskSwitch, PassSwitch, ReturnSend, Minted, Claimable, After, Outstanding, LoginClaim, WasMinted, Serves;
    hide EnterCode, LoadOwner, UseProof, SaveContact, SaveEnrol, FindRecovery, AskContact, SaveSession, PassFirstFactor, LoadFirstFactor;
    hide AskRecovery, AskEnrol, AskDisable, SaveDisable, RefreshDisable, AskReset, LoadReset, SavePassword, RefreshPassword;
    hide ChangeRow, AskChange, SaveChange, AskPreference, SavePreference;
    var now := sys.(clock := at);
    SwitchIsOut(cfg, now, t, user, held, channel, send, at);
    SwitchKeepsClock(cfg, now, t, held, channel, send, at);
    SwitchKeepsClock(cfg, AskSwitch(cfg, now, t, held, at).(steps := sys.steps + 1), t, held, channel, send, at);
  }

  lemma LoginMints(cfg: Config, user: UserId, row: User, channel: Channel, send: SendInput, at: real)
    requires Serves(row, channel)
    ensures var c := Minted(cfg, LoginClaim(user, row, channel, send), at);
      && c.user == user && c.purpose == SignIn && c.expiresAt == at + cfg.codeTtl as real
      && (c.channel == Totp ==> row.secret.Some?) && RightFor(c, send.id, send.code, Right)
  {
  }

  lemma LiveWasMinted(cfg: Config, calls: seq<Call>, id: ChallengeId)
    requires id in After(cfg, calls).codes.live
    ensures WasMinted(calls, id)
  {
    hide After;
    var claimed, committed := LiveOrigin(cfg, calls, id);
  }

  /** Switching works: from any moment of any run at which a sign-in challenge of the account is
      live, moving to a method that can serve it and that no limit refuses makes the new code
      live and ends the old one, and the right new code in time ends in a session. */
  lemma SwitchSucceeds(cfg: Config, users: map<UserId, User>, past: seq<Moment>, t: TaskId, user: UserId, held: ChallengeId,
                       channel: Channel, send: SendInput, at: real, later: real)
    requires MaySwitch(cfg, Run(cfg, users, past), t, user, held, channel, send, at) && at <= later < at + cfg.codeTtl as real
    ensures
      var run := SwitchRun(t, user, held, channel, send, at, later);
      var before, switched, after := Run(cfg, users, past), Run(cfg, users, past + run[..3]), Run(cfg, users, past + run);
      var live, sessions := After(cfg, switched.calls).codes.live, after.log.sessions;
      && switched.switched == before.switched + [held] && held !in live
      && send.id in live && live[send.id] == Minted(cfg, LoginClaim(user, before.users[user], channel, send), at)
      && |sessions| == |before.log.sessions| + 1 && sessions[..|before.log.sessions|] == before.log.sessions
      && sessions[|before.log.sessions|].user == user && sessions[|before.log.sessions|].proof.Some?
  {
    hide Next, Run, After, Claimable, WasMinted, Minted, RightFor, Sound, MintedBy, LoginClaim, Serves;
    var run := SwitchRun(t, user, held, channel, send, at, later);
    var actions, sys, n := past + run, Run(cfg, users, past), |past|;
    assert actions[..n] == past && actions[..n + 7] == actions && actions[..n + 3] == past + run[..3];
    EveryRunIsSound(cfg, users, past);
    LiveWasMinted(cfg, sys.calls, held);
    SwitchSteps(cfg, sys, t, user, held, channel, send, at);
    RunNext(cfg, users, actions, n);
    RunNext(cfg, users, actions, n + 1);
    RunNext(cfg, users, actions, n + 2);
    var c := Minted(cfg, LoginClaim(user, sys.users[user], channel, send), at);
    LoginMints(cfg, user, sys.users[user], channel, send, at);
    SessionFollows(cfg, users, actions, n + 3, t, send.id, c, send.code, at, later);
  }

  // -- Recovering a password -------------------------------------------------------

  /** The claim of a recovery by one method; no client address is counted. */
  function RecoveryClaim(user: UserId, row: User, channel: Channel, send: SendInput): (op: Operation)
    ensures Mints(op) && op.id == send.id
  {
    if channel == Totp then ClaimTotp(send.id, user, PasswordReset, None, true)
    else Claim(send.id, send.code, user, PasswordReset, channel, DestinationFor(row, channel), None)
  }

  /** The steps of a recovery up to the reset that is about to save the new password. */
  function ProvingRun(t: TaskId, user: UserId, channel: Channel, address: Option<Address>, send: SendInput, token: Token,
                      at: real, later: real): seq<Moment>
  {
    [Moment(RecoveryAsked(t, address), at), Moment(RecoveryFound(t, user, channel, send), at), Moment(SendReturned(t, true), at),
     Moment(CodeEntered(t, PasswordReset, send.id, send.code, user), later), Moment(OwnerLoaded(t, Right), later),
     Moment(ProvenLoaded(t, token), later), Moment(ResetAsked(t, token), later), Moment(ResetLoaded(t), later)]
  }

  /** And to its return. */
  function RecoveryRun(t: TaskId, user: UserId, channel: Channel, address: Option<Address>, send: SendInput, token: Token,
                       password: string, at: real, later: real): seq<Moment>
  {
    ProvingRun(t, user, channel, address, send, token, at, later)
    + [Moment(PasswordSaved(t, password), later), Moment(PasswordRefreshed(t), later)]
  }

  /** What a recovery needs: an active account that the method can serve, a fresh token, and
      limits that do not refuse. */
  predicate MayRecover(cfg: Config, sys: System, t: TaskId, user: UserId, channel: Channel, address: Option<Address>,
                       send: SendInput, token: Token, at: real)
  {
    && Idle(sys, t) && NewId(sys, send.id) && token !in sys.tokens && at >= sys.clock && user in sys.users && sys.users[user].active
    && Serves(sys.users[user], channel) && (channel == Totp || send.configured)
    && Answered(cfg, sys, ReserveRequest(address), at) == Accepted
    && Claimable(cfg, After(cfg, sys.calls), RecoveryClaim(user, sys.users[user], channel, send), at)
  }

  lemma RequestPrunes(cfg: Config, s: State, requests: map<Address, seq<real>>, at: real)
    ensures
      var p, q := Prune(cfg, s, at), Prune(cfg, s.(limits := s.limits.(addressRequests := requests)), at);
      q.limits == p.limits.(addressRequests := q.limits.addressRequests) && q.guard == p.guard
  {
    hide Kept, PruneEvents;
  }

  /** No claim is measured by the requests. */
  lemma RequestsRefuseNothing(cfg: Config, p: State, q: State, op: Operation, at: real)
    requires Mints(op) && q.guard == p.guard && q.limits == p.limits.(addressRequests := q.limits.addressRequests)
    ensures ClaimRefusal(cfg, q, op, at) == ClaimRefusal(cfg, p, op, at)
  {
    hide WindowRefusal, LockRefusal;
  }

  /** Counting the request refuses no claim. */
  lemma RequestKeepsClaimable(cfg: Config, s: State, op: Operation, address: Option<Address>, at: real)
    requires Claimable(cfg, s, op, at)
    ensures Claimable(cfg, Step(cfg, s, ReserveRequest(address), at).state, op, at)
  {
    hide Prune, WindowRefusal, ClaimRefusal, Append;
    var p, counted := Prune(cfg, s, at), Step(cfg, s, ReserveRequest(address), at).state;
    if counted != s {
      PruneTwice(cfg, s, at);
      RequestPrunes(cfg, p, counted.limits.addressRequests, at);
      RequestsRefuseNothing(cfg, p, Prune(cfg, counted, at), op, at);
    }
  }

  lemma RecoveryIsOut(cfg: Config, sys: System, t: TaskId, user: UserId, channel: Channel, address: Option<Address>,
                      send: SendInput, token: Token, at: real)
    requires MayRecover(cfg, sys, t, user, channel, address, send, token, at) && at >= 0.0 && sys.clock == at
    ensures
      var op := RecoveryClaim(user, sys.users[user], channel, send);
      var asked := AskRecovery(cfg, sys, t, address, at).(steps := sys.steps + 1);
      var found := FindRecovery(cfg, asked, t, user, channel, send, at).(steps := sys.steps + 2);
      var b := ReturnSend(cfg, found, t, true, at);
      && b == sys.(calls := b.calls, steps := sys.steps + 2) && MintsOnly(sys.calls, b.calls, op)
      && Outstanding(cfg, After(cfg, b.calls), send.id, Minted(cfg, op, at), at)
  {
    hide ReturnSend, StartClaim, After, Minted, Step, Claimable, Outstanding, WasMinted;
    var op := RecoveryClaim(user, sys.users[user], channel, send);
    var reserve := ReserveRequest(address);
    AfterOne(cfg, sys.calls, Call(reserve, at));
    RequestKeepsClaimable(cfg, After(cfg, sys.calls), op, address, at);
    var reserved := Asked(sys, reserve, at);
    var asked := Begin(reserved, t, Recovering).(steps := sys.steps + 1);
    AskedIsNew(sys, reserve, at, send.id);
    RecoveryStarted(cfg, asked, t, user, channel, send, at);
    assert asked.tasks - {t} == reserved.tasks;
    ClaimIsOut(cfg, reserved, asked, t, op, None, at);
  }

  lemma RecoveryStarted(cfg: Config, sys: System, t: TaskId, user: UserId, channel: Channel, send: SendInput, at: real)
    requires Waits(sys, t) && sys.tasks[t].Recovering? && NewId(sys, send.id) && user in sys.users && sys.users[user].active
    requires Serves(sys.users[user], channel) && (channel == Totp || send.configured)
    ensures FindRecovery(cfg, sys, t, user, channel, send, at)
      == StartClaim(cfg, sys, t, RecoveryClaim(user, sys.users[user], channel, send), None, at)
  {
    hide StartTotp, StartSend, WasMinted;
  }

  lemma RecoveryKeepsClock(cfg: Config, sys: System, t: TaskId, user: UserId, channel: Channel, address: Option<Address>, send: SendInput, at: real)
    ensures var b := AskRecovery(cfg, sys, t, address, at); b.clock == sys.clock && b.steps == sys.steps
    ensures var b := FindRecovery(cfg, sys, t, user, channel, send, at); b.clock == sys.clock && b.steps == sys.steps
  {
    hide Answered, DestinationFor, Serves, NewId;
  }

  lemma RecoverySteps(cfg: Config, sys: System, t: TaskId, user: UserId, channel: Channel, address: Option<Address>,
                      send: SendInput, token: Token, at: real)
    requires MayRecover(cfg, sys, t, user, channel, address, send, token, at) && at >= 0.0
    ensures
      var op := RecoveryClaim(user, sys.users[user], channel, send);
      var asked := Next(cfg, sys, RecoveryAsked(t, address), at);
      var found := Next(cfg, asked, RecoveryFound(t, user, channel, send), at);
      var b := Next(cfg, found, SendReturned(t, true), at);
      && b == sys.(calls := b.calls, clock := at, steps := sys.steps + 3) && MintsOnly(sys.calls, b.calls, op)
      && Outstanding(cfg, After(cfg, b.calls), send.id, Minted(cfg, op, at), at)
  {
    hide AskSwitch, PassSwitch, ReturnSend, Minted, Claimable, After, Outstanding, RecoveryClaim, WasMinted, Serves, MintsOnly, Step;
    hide EnterCode, LoadOwner, UseProof, SaveContact, SaveEnrol, FindRecovery, AskContact, SaveSession, PassFirstFactor, LoadFirstFactor;
    hide AskRecovery, AskEnrol, AskDisable, SaveDisable, RefreshDisable, AskReset, LoadReset, SavePassword, RefreshPassword;
    hide ChangeRow, AskChange, SaveChange, AskPreference, SavePreference;
    var now := sys.(clock := at);
    RecoveryIsOut(cfg, now, t, user, channel, address, send, token, at);
    RecoveryKeepsClock(cfg, now, t, user, channel, address, send, at);
    RecoveryKeepsClock(cfg, AskRecovery(cfg, now, t, address, at).(steps := sys.steps + 1), t, user, channel, address, send, at);
  }

  /** A proven recovery of an active account becomes an authorization. */
  lemma ProofIsAuthorized(cfg: Config, sys: System, t: TaskId, token: Token, at: real)
    requires Waits(sys, t) && sys.tasks[t].Proven? && sys.tasks[t].c.purpose == PasswordReset && sys.clock == at && token !in sys.tokens
    requires var Proven(_, c, seen, _) := sys.tasks[t];
      c.user in sys.users && (if seen.Some? then seen.value.active else sys.users[c.user].active)
    ensures
      var Proven(proof, c, _, _) := sys.tasks[t];
      var b := Next(cfg, sys, ProvenLoaded(t, token), at);
      && b == End(sys, t).(tokens := sys.tokens + {token}, authorizations := b.authorizations, steps := sys.steps + 1)
      && token in b.authorizations && b.authorizations[token] == Authorization(c.user, at + cfg.authorizationTtl as real, at, proof)
  {
    hide AskSwitch, PassSwitch, ReturnSend, EnterCode, LoadOwner, SaveContact, SaveEnrol, FindRecovery, AskContact, SaveSession;
    hide PassFirstFactor, LoadFirstFactor, AskRecovery, AskEnrol, AskDisable, SaveDisable, RefreshDisable, SavePassword, RefreshPassword;
    hide ChangeRow, AskChange, SaveChange, AskPreference, SavePreference, AskReset, LoadReset, WithoutExpired;
  }

  lemma TokenIsSpent(cfg: Config, sys: System, t: TaskId, token: Token)
    requires Idle(sys, t) && token in sys.authorizations && sys.authorizations[token].expiresAt > sys.clock
    ensures
      var a := sys.authorizations[token];
      var b := Next(cfg, sys, ResetAsked(t, token), sys.clock);
      b == Begin(sys, t, Resetting(a.user, a.proof, a.mintedAt, sys.clock)).(authorizations := b.authorizations, steps := sys.steps + 1)
  {
    hide AskSwitch, PassSwitch, ReturnSend, EnterCode, LoadOwner, SaveContact, SaveEnrol, FindRecovery, AskContact, SaveSession;
    hide PassFirstFactor, LoadFirstFactor, AskRecovery, AskEnrol, AskDisable, SaveDisable, RefreshDisable, SavePassword, RefreshPassword;
    hide ChangeRow, AskChange, SaveChange, AskPreference, SavePreference, UseProof, LoadReset;
  }

  lemma ResetIsLoaded(cfg: Config, sys: System, t: TaskId)
    requires Waits(sys, t) && sys.tasks[t].Resetting? && sys.tasks[t].user in sys.users && sys.users[sys.tasks[t].user].active
    ensures
      var Resetting(user, proof, mintedAt, spentAt) := sys.tasks[t];
      Next(cfg, sys, ResetLoaded(t), sys.clock) == Begin(sys, t, SettingPassword(user, proof, mintedAt, spentAt)).(steps := sys.steps + 1)
  {
    hide AskSwitch, PassSwitch, ReturnSend, EnterCode, LoadOwner, SaveContact, SaveEnrol, FindRecovery, AskContact, SaveSession;
    hide PassFirstFactor, LoadFirstFactor, AskRecovery, AskEnrol, AskDisable, SaveDisable, RefreshDisable, SavePassword, RefreshPassword;
    hide ChangeRow, AskChange, SaveChange, AskPreference, SavePreference, UseProof, AskReset;
  }

  /** An authorization opens one reset. */
  lemma TokenOpensReset(cfg: Config, sys: System, t: TaskId, token: Token)
    requires Idle(sys, t) && token in sys.authorizations && sys.authorizations[token].expiresAt > sys.clock
    requires sys.authorizations[token].user in sys.users && sys.users[sys.authorizations[token].user].active
    ensures
      var a := sys.authorizations[token];
      var b := Next(cfg, Next(cfg, sys, ResetAsked(t, token), sys.clock), ResetLoaded(t), sys.clock);
      b == Begin(sys, t, SettingPassword(a.user, a.proof, a.mintedAt, sys.clock)).(authorizations := b.authorizations, steps := sys.steps + 2)
  {
    hide Next;
    TokenIsSpent(cfg, sys, t, token);
    ResetIsLoaded(cfg, Next(cfg, sys, ResetAsked(t, token), sys.clock), t);
    var a := sys.authorizations[token];
    assert sys.tasks[t := Resetting(a.user, a.proof, a.mintedAt, sys.clock)][t := SettingPassword(a.user, a.proof, a.mintedAt, sys.clock)]
      == sys.tasks[t := SettingPassword(a.user, a.proof, a.mintedAt, sys.clock)];
  }

  /** A proven recovery opens one reset, at once. */
  lemma ProofOpensReset(cfg: Config, sys: System, t: TaskId, token: Token, at: real)
    requires Waits(sys, t) && sys.tasks[t].Proven? && sys.tasks[t].c.purpose == PasswordReset && sys.clock == at && token !in sys.tokens
    requires var Proven(_, c, seen, _) := sys.tasks[t];
      c.user in sys.users && sys.users[c.user].active && (seen.Some? ==> seen.value.active)
    ensures
      var Proven(proof, c, _, _) := sys.tasks[t];
      var b := Next(cfg, Next(cfg, Next(cfg, sys, ProvenLoaded(t, token), at), ResetAsked(t, token), at), ResetLoaded(t), at);
      && b == sys.(tasks := sys.tasks[t := SettingPassword(c.user, proof, at, at)], tokens := sys.tokens + {token},
                   authorizations := b.authorizations, steps := sys.steps + 3)
  {
    hide Next;
    ProofIsAuthorized(cfg, sys, t, token, at);
    TokenOpensReset(cfg, Next(cfg, sys, ProvenLoaded(t, token), at), t, token);
    var reset := SettingPassword(sys.tasks[t].c.user, sys.tasks[t].proof, at, at);
    assert (sys.tasks - {t})[t := reset] == sys.tasks[t := reset];
  }

  lemma RecoveryMints(cfg: Config, user: UserId, row: User, channel: Channel, send: SendInput, at: real)
    requires Serves(row, channel)
    ensures var c := Minted(cfg, RecoveryClaim(user, row, channel, send), at);
      && c.user == user && c.purpose == PasswordReset && c.expiresAt == at + cfg.codeTtl as real
      && (c.channel == Totp ==> row.secret.Some?) && RightFor(c, send.id, send.code, Right)
  {
  }

  /** Up to the proof. */
  lemma RecoveryIsProven(cfg: Config, users: map<UserId, User>, past: seq<Moment>, actions: seq<Moment>, t: TaskId, user: UserId,
                         channel: Channel, address: Option<Address>, send: SendInput, token: Token, at: real, later: real)
    requires MayRecover(cfg, Run(cfg, users, past), t, user, channel, address, send, token, at) && at <= later < at + cfg.codeTtl as real
    requires actions == past + ProvingRun(t, user, channel, address, send, token, at, later)
    ensures
      var a, b := Run(cfg, users, past), Run(cfg, users, actions[..|past| + 5]);
      && Waits(b, t) && b.tasks[t].Proven? && b.tasks[t].c == Minted(cfg, RecoveryClaim(user, a.users[user], channel, send), at)
      && b == a.(calls := b.calls, clock := later, tasks := a.tasks[t := b.tasks[t]], steps := a.steps + 5)
      && (b.tasks[t].seen.Some? ==> b.tasks[t].seen == Some(a.users[user]))
      && MintsOnly(a.calls, b.calls, RecoveryClaim(user, a.users[user], channel, send))
  {
    hide MintsOnly, Next, Run, After, Outstanding, Claimable, WasMinted, Minted, RightFor, Sound, MintedBy, RecoveryClaim, Serves, Step;
    var sys, n := Run(cfg, users, past), |past|;
    assert actions[..n] == past;
    EveryRunIsSound(cfg, users, past);
    RecoverySteps(cfg, sys, t, user, channel, address, send, token, at);
    RunNext(cfg, users, actions, n);
    RunNext(cfg, users, actions, n + 1);
    RunNext(cfg, users, actions, n + 2);
    var op := RecoveryClaim(user, sys.users[user], channel, send);
    RecoveryMints(cfg, user, sys.users[user], channel, send, at);
    CodeStepsProve(cfg, Run(cfg, users, actions[..n + 3]), t, send.id, Minted(cfg, op, at), send.code, at, later);
    RunNext(cfg, users, actions, n + 3);
    RunNext(cfg, users, actions, n + 4);
    MintsOnlyOnwards(sys.calls, Run(cfg, users, actions[..n + 3]).calls, Run(cfg, users, actions[..n + 5]).calls, op);
  }

  /** Up to the reset that is about to save the new password. */
  lemma RecoveryReaches(cfg: Config, users: map<UserId, User>, past: seq<Moment>, t: TaskId, user: UserId, channel: Channel,
                        address: Option<Address>, send: SendInput, token: Token, at: real, later: real)
    requires MayRecover(cfg, Run(cfg, users, past), t, user, channel, address, send, token, at) && at <= later < at + cfg.codeTtl as real
    ensures
      var a, b := Run(cfg, users, past), Run(cfg, users, past + ProvingRun(t, user, channel, address, send, token, at, later));
      && Waits(b, t) && b.tasks[t].SettingPassword? && b.tasks[t].user == user && b.tasks == a.tasks[t := b.tasks[t]]
      && b.users == a.users && b.log == a.log && b.clock == later
      && MintsOnly(a.calls, b.calls, RecoveryClaim(user, a.users[user], channel, send))
  {
    hide MintsOnly, Next, Run, Claimable, WasMinted, Minted, RecoveryClaim, Answered;
    var actions := past + ProvingRun(t, user, channel, address, send, token, at, later);
    var sys, n := Run(cfg, users, past), |past|;
    assert actions[..n + 8] == actions;
    RecoveryIsProven(cfg, users, past, actions, t, user, channel, address, send, token, at, later);
    RecoveryMints(cfg, user, sys.users[user], channel, send, at);
    ProofOpensReset(cfg, Run(cfg, users, actions[..n + 5]), t, token, later);
    RunNext(cfg, users, actions, n + 5);
    RunNext(cfg, users, actions, n + 6);
    RunNext(cfg, users, actions, n + 7);
  }

  lemma PasswordIsSaved(cfg: Config, sys: System, t: TaskId, password: string)
    requires Waits(sys, t) && sys.tasks[t].SettingPassword? && sys.tasks[t].user in sys.users
    ensures
      var SettingPassword(user, proof, mintedAt, spentAt) := sys.tasks[t];
      var b := Next(cfg, sys, PasswordSaved(t, password), sys.clock);
      && b.users == sys.users[user := sys.users[user].(password := Some(password))]
      && b.log == sys.log.(passwords := sys.log.passwords + [PasswordChange(user, password, proof, mintedAt, spentAt)])
      && b.tasks == sys.tasks[t := PasswordSet(user)] && b.calls == sys.calls && b.clock == sys.clock && b.steps == sys.steps + 1
  {
    hide AskSwitch, PassSwitch, ReturnSend, EnterCode, LoadOwner, SaveContact, SaveEnrol, FindRecovery, AskContact, SaveSession;
    hide PassFirstFactor, LoadFirstFactor, AskRecovery, AskEnrol, AskDisable, SaveDisable, RefreshDisable, UseProof, AskReset, LoadReset;
    hide ChangeRow, AskChange, SaveChange, AskPreference, SavePreference, RefreshPassword;
  }

  lemma ResetIsSaved(cfg: Config, sys: System, t: TaskId, password: string)
    requires Waits(sys, t) && sys.tasks[t].SettingPassword? && sys.tasks[t].user in sys.users
    ensures
      var SettingPassword(user, proof, mintedAt, spentAt) := sys.tasks[t];
      var b := Next(cfg, Next(cfg, sys, PasswordSaved(t, password), sys.clock), PasswordRefreshed(t), sys.clock);
      && b.users == sys.users[user := sys.users[user].(password := Some(password))] && b.tasks == sys.tasks - {t}
      && b.log == sys.log.(passwords := sys.log.passwords + [PasswordChange(user, password, proof, mintedAt, spentAt)])
      && (forall id :: id in After(cfg, b.calls).codes.live ==> After(cfg, b.calls).codes.live[id].user != user)
      && forall k :: k in b.authorizations ==> b.authorizations[k].user != user
  {
    hide After, WithoutUser, SavePassword;
    hide AskSwitch, PassSwitch, ReturnSend, EnterCode, LoadOwner, SaveContact, SaveEnrol, FindRecovery, AskContact, SaveSession;
    hide PassFirstFactor, LoadFirstFactor, AskRecovery, AskEnrol, AskDisable, SaveDisable, RefreshDisable, UseProof, AskReset, LoadReset;
    hide ChangeRow, AskChange, SaveChange, AskPreference, SavePreference;
    var saved := Next(cfg, sys, PasswordSaved(t, password), sys.clock);
    PasswordIsSaved(cfg, sys, t, password);
    CompleteClears(cfg, saved, t, sys.clock);
    assert saved.tasks - {t} == sys.tasks - {t};
  }

  /** Recovery works: from any moment of any run, an active account that the method can serve
      and that no limit refuses gets its new password when the code is right and in time, and
      keeps no live code and no authorization. */
  lemma RecoverySucceeds(cfg: Config, users: map<UserId, User>, past: seq<Moment>, t: TaskId, user: UserId, channel: Channel,
                         address: Option<Address>, send: SendInput, token: Token, password: string, at: real, later: real)
    requires MayRecover(cfg, Run(cfg, users, past), t, user, channel, address, send, token, at) && at <= later < at + cfg.codeTtl as real
    ensures
      var a, b := Run(cfg, users, past), Run(cfg, users, past + RecoveryRun(t, user, channel, address, send, token, password, at, later));
      && b.users == a.users[user := a.users[user].(password := Some(password))] && b.tasks == a.tasks
      && |b.log.passwords| == |a.log.passwords| + 1 && b.log.passwords[..|a.log.passwords|] == a.log.passwords
      && b.log == a.log.(passwords := b.log.passwords)
      && (forall id :: id in After(cfg, b.calls).codes.live ==> After(cfg, b.calls).codes.live[id].user != user)
      && forall k :: k in b.authorizations ==> b.authorizations[k].user != user
  {
    hide Next, Run, After, MintsOnly, Claimable, WasMinted, Serves, Answered, RecoveryClaim;
    var proving := past + ProvingRun(t, user, channel, address, send, token, at, later);
    var actions := past + RecoveryRun(t, user, channel, address, send, token, password, at, later);
    var n := |past| + 8;
    assert actions[..n] == proving && actions[..n + 2] == actions;
    RecoveryReaches(cfg, users, past, t, user, channel, address, send, token, at, later);
    ResetIsSaved(cfg, Run(cfg, users, proving), t, password);
    RunNext(cfg, users, actions, n);
    RunNext(cfg, users, actions, n + 1);
  }
}
