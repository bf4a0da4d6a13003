/** What one step adds to a system, and what each addition rests on: a code that was verified,
    a row that was read, or neither. */
module AccountsSteps {
  import opened Wrappers
  import opened Otp
  import opened OtpLifecycle
  import opened Accounts
  import opened AccountsProofs

  // -- What things rest on ---------------------------------------------------------

  /** The verified code, or the row read at some moment, by which a check was passed. */
  datatype Basis = OnNothing | OnCode(proof: nat) | OnRow(user: UserId, loadedAt: nat)

  function BasisOf(task: Task): Basis {
    match task
    case Identified(user, _, loadedAt) => OnRow(user, loadedAt)
    case Proven(proof, _, _, _) => OnCode(proof)
    case Issuing(user, loadedAt, proof) => if proof.Some? then OnCode(proof.value) else OnRow(user, loadedAt)
    case Confirming(_, proof, _, _, _) => OnCode(proof)
    case Resetting(_, proof, _, _) => OnCode(proof)
    case SettingPassword(_, proof, _, _) => OnCode(proof)
    case Changing(change) => OnRow(change.user, change.loadedAt)
    case _ => OnNothing
  }

  function SessionBasis(s: Session): Basis {
    if s.proof.Some? then OnCode(s.proof.value) else OnRow(s.user, s.loadedAt)
  }

  ghost predicate HeldBasis(a: System, basis: Basis) {
    || (exists t :: t in a.tasks && BasisOf(a.tasks[t]) == basis)
    || exists k :: k in a.authorizations && OnCode(a.authorizations[k].proof) == basis
  }

  /** It rests on nothing, on what is happening just now, or on what a request or an
      authorization rested on already. */
  ghost predicate Inherits(a: System, basis: Basis) {
    match basis
    case OnNothing => true
    case OnCode(proof) => proof >= |a.calls| || HeldBasis(a, basis)
    case OnRow(_, loadedAt) => loadedAt >= a.steps || HeldBasis(a, basis)
  }

  // -- Steps -----------------------------------------------------------------------

  /** A request awaits a send of this challenge, on these terms. */
  ghost predicate SentBy(a: System, id: ChallengeId, supersedes: Option<ChallengeId>) {
    exists t :: t in a.tasks && a.tasks[t].Sending? && a.tasks[t].id == id && a.tasks[t].supersedes == supersedes
  }

  /** The store was asked more, and what was committed is new or had been sent. */
  ghost predicate Asks(a: System, b: System) {
    a.calls <= b.calls
    && forall i :: |a.calls| <= i < |b.calls| && b.calls[i].op.Commit? ==>
      !WasMinted(a.calls, b.calls[i].op.id) || SentBy(a, b.calls[i].op.id, b.calls[i].op.supersedes)
  }

  /** What a request may go on to: a send awaited is of a new challenge. */
  ghost predicate GoesOn(a: System, task: Task) {
    Inherits(a, BasisOf(task)) && (task.Sending? ==> !WasMinted(a.calls, task.id))
  }

  ghost predicate Logs(a: System, log: Log) {
    && (log.sessions == a.log.sessions
        || (|log.sessions| > 0 && log.sessions[..|log.sessions| - 1] == a.log.sessions
            && Inherits(a, SessionBasis(log.sessions[|log.sessions| - 1]))))
    && (log.passwords == a.log.passwords
        || (|log.passwords| > 0 && log.passwords[..|log.passwords| - 1] == a.log.passwords
            && Inherits(a, OnCode(log.passwords[|log.passwords| - 1].proof))))
    && (log.contacts == a.log.contacts
        || (|log.contacts| > 0 && log.contacts[..|log.contacts| - 1] == a.log.contacts
            && Inherits(a, OnCode(log.contacts[|log.contacts| - 1].proof))))
    && (log.changes == a.log.changes
        || (|log.changes| > 0 && log.changes[..|log.changes| - 1] == a.log.changes
            && Inherits(a, OnRow(log.changes[|log.changes| - 1].user, log.changes[|log.changes| - 1].loadedAt))))
  }

  /** What the step of one request may do. */
  ghost predicate Follows(a: System, b: System, t: TaskId) {
    && Asks(a, b)
    && b.tasks - {t} == a.tasks - {t}
    && (t in b.tasks ==> (t in a.tasks && b.tasks[t] == a.tasks[t]) || GoesOn(a, b.tasks[t]))
    && (forall k :: k in b.authorizations ==>
      (k in a.authorizations && b.authorizations[k] == a.authorizations[k]) || Inherits(a, OnCode(b.authorizations[k].proof)))
    && Logs(a, b.log)
  }

  /** A new challenge may be claimed, sent and committed. */
  ghost predicate Begins(a: System, b: System, t: TaskId, id: ChallengeId) {
    && a.calls <= b.calls && b.tasks - {t} == a.tasks - {t} && b.authorizations == a.authorizations && b.log == a.log
    && (t in b.tasks ==> (t in a.tasks && b.tasks[t] == a.tasks[t]) || (b.tasks[t].Sending? && b.tasks[t].id == id))
    && forall i :: |a.calls| <= i < |b.calls| && b.calls[i].op.Commit? ==> b.calls[i].op.id == id
  }

  lemma BegunFollows(a: System, b: System, t: TaskId, id: ChallengeId)
    requires Begins(a, b, t, id) && NewId(a, id)
    ensures Follows(a, b, t)
  {
    hide WasMinted;
  }

  lemma InstallBegins(cfg: Config, a: System, t: TaskId, id: ChallengeId, purpose: Purpose, supersedes: Option<ChallengeId>, at: real)
    ensures Begins(a, Install(cfg, a, t, id, purpose, supersedes, at), t, id)
  {
    hide Answered;
  }

  lemma TotpBegins(cfg: Config, a: System, t: TaskId, op: Operation, supersedes: Option<ChallengeId>, at: real)
    requires op.ClaimTotp?
    ensures Begins(a, StartTotp(cfg, a, t, op, supersedes, at), t, op.id)
  {
    hide Answered, Install;
    InstallBegins(cfg, Asked(a, op, at), t, op.id, op.purpose, supersedes, at);
  }

  lemma LoginBegins(cfg: Config, a: System, t: TaskId, user: UserId, row: User, chosen: Option<Channel>,
                    supersedes: Option<ChallengeId>, send: SendInput, at: real)
    ensures Begins(a, StartLogin(cfg, a, t, user, row, chosen, supersedes, send, at), t, send.id)
  {
    hide Answered, StartTotp, DestinationFor;
    TotpBegins(cfg, a, t, ClaimTotp(send.id, user, SignIn, None, true), supersedes, at);
  }

  /** The request moves on, or ends, and nothing else is written. */
  ghost predicate Moves(a: System, b: System, t: TaskId) {
    && a.calls <= b.calls && b.authorizations == a.authorizations && b.log == a.log
    && b.tasks - {t} == a.tasks - {t} && (t in b.tasks ==> (t in a.tasks && b.tasks[t] == a.tasks[t]) || GoesOn(a, b.tasks[t]))
    && forall i :: |a.calls| <= i < |b.calls| ==> !b.calls[i].op.Commit?
  }

  lemma MovedFollows(a: System, b: System, t: TaskId)
    requires Moves(a, b, t)
    ensures Follows(a, b, t)
  {
    hide WasMinted, GoesOn;
  }

  lemma NothingFollows(a: System, t: TaskId)
    ensures Follows(a, a, t) && Follows(a, End(a, t), t)
  {
  }

  lemma FirstFactorFollows(cfg: Config, a: System, t: TaskId, send: SendInput, at: real)
    ensures Follows(a, PassFirstFactor(cfg, a, t, send, at), t)
  {
    hide StartLogin, WasMinted, DefaultChannel, Begins;
    if Waits(a, t) && a.tasks[t].Identified? && NewId(a, send.id) {
      var Identified(user, row, loadedAt) := a.tasks[t];
      LoginBegins(cfg, a, t, user, row, DefaultChannel(row), None, send, at);
      BegunFollows(a, StartLogin(cfg, a, t, user, row, DefaultChannel(row), None, send, at), t, send.id);
      assert HeldBasis(a, OnRow(user, loadedAt));
    }
  }

  lemma SwitchFollows(cfg: Config, a: System, t: TaskId, channel: Channel, send: SendInput, at: real)
    ensures Follows(a, PassSwitch(cfg, a, t, channel, send, at), t)
  {
    hide StartLogin, WasMinted, Begins, Follows;
    NothingFollows(a, t);
    if Waits(a, t) && a.tasks[t].Switching? && NewId(a, send.id) && a.tasks[t].user in a.users {
      var Switching(challenge, user) := a.tasks[t];
      LoginBegins(cfg, a, t, user, a.users[user], Some(channel), Some(challenge), send, at);
      BegunFollows(a, StartLogin(cfg, a, t, user, a.users[user], Some(channel), Some(challenge), send, at), t, send.id);
    }
  }

  lemma EnrolFollows(cfg: Config, a: System, t: TaskId, id: ChallengeId, ttl: nat, at: real)
    ensures Follows(a, SaveEnrol(cfg, a, t, id, ttl, at), t)
  {
    hide StartTotp, WasMinted, Follows;
    NothingFollows(a, t);
    if Waits(a, t) && a.tasks[t].Enrolling? && NewId(a, id) && a.tasks[t].user in a.users {
      var Enrolling(user, secret) := a.tasks[t];
      var stored := a.(users := a.users[user := a.users[user].(secret := Some(secret))]);
      TotpBegins(cfg, stored, t, ClaimTotp(id, user, VerifyContact, Some(ttl), false), None, at);
      BegunFollows(a, SaveEnrol(cfg, a, t, id, ttl, at), t, id);
    }
  }

  lemma RecoveryFollows(cfg: Config, a: System, t: TaskId, user: UserId, channel: Channel, send: SendInput, at: real)
    ensures Follows(a, FindRecovery(cfg, a, t, user, channel, send, at), t)
  {
    hide StartTotp, WasMinted, Follows, Answered, Serves, DestinationFor;
    NothingFollows(a, t);
    if NewId(a, send.id) {
      TotpBegins(cfg, a, t, ClaimTotp(send.id, user, PasswordReset, None, true), None, at);
      if FindRecovery(cfg, a, t, user, channel, send, at) != a && FindRecovery(cfg, a, t, user, channel, send, at) != End(a, t) {
        BegunFollows(a, FindRecovery(cfg, a, t, user, channel, send, at), t, send.id);
      }
    }
  }

  lemma SendFollows(cfg: Config, a: System, t: TaskId, ok: bool, at: real)
    ensures Follows(a, ReturnSend(cfg, a, t, ok, at), t)
  {
    hide Install, WasMinted;
    if Waits(a, t) && a.tasks[t].Sending? {
      var Sending(id, user, purpose, supersedes) := a.tasks[t];
      InstallCommits(cfg, a, t, id, purpose, supersedes, at);
      assert SentBy(a, id, supersedes);
    }
  }

  lemma InstallCommits(cfg: Config, a: System, t: TaskId, id: ChallengeId, purpose: Purpose, supersedes: Option<ChallengeId>, at: real)
    ensures
      var b := Install(cfg, a, t, id, purpose, supersedes, at);
      && a.calls <= b.calls && b.tasks == a.tasks - {t} && b.authorizations == a.authorizations && b.log == a.log
      && forall i :: |a.calls| <= i < |b.calls| && b.calls[i].op.Commit? ==> b.calls[i].op == Commit(id, supersedes)
  {
    hide Answered;
  }

  lemma JudgeFollows(cfg: Config, a: System, asked: System, t: TaskId, op: Operation, seen: Option<User>, at: real)
    requires op.Verify? && Follows(a, asked, t) && asked.tasks == a.tasks && asked.authorizations == a.authorizations && asked.log == a.log
    ensures Follows(a, JudgeCode(cfg, asked, t, op, seen, at), t)
  {
    hide Answered, WasMinted;
  }

  lemma EnterFollows(cfg: Config, a: System, t: TaskId, flow: Purpose, challenge: ChallengeId, code: string, user: UserId, at: real)
    ensures Follows(a, EnterCode(cfg, a, t, flow, challenge, code, user, at), t)
  {
    hide Answered, JudgeCode, WasMinted;
    var asked := Asked(a, RequireLive(challenge, flow), at);
    JudgeFollows(cfg, a, asked, t, Verify(challenge, code, flow, Expected(flow, user), None), None, at);
  }

  lemma OwnerFollows(cfg: Config, a: System, t: TaskId, verdict: Verdict, at: real)
    ensures Follows(a, LoadOwner(cfg, a, t, verdict, at), t)
  {
    hide Follows, JudgeCode;
    NothingFollows(a, t);
    if Waits(a, t) && a.tasks[t].LoadingOwner? && a.tasks[t].owner in a.users {
      var LoadingOwner(flow, challenge, code, owner, expected) := a.tasks[t];
      JudgeFollows(cfg, a, a, t, Verify(challenge, code, flow, expected, Some(verdict)), Some(a.users[owner]), at);
    }
  }

  lemma ProofFollows(cfg: Config, a: System, t: TaskId, token: Token, at: real)
    ensures Follows(a, UseProof(cfg, a, t, token, at), t)
  {
    hide WasMinted;
    if Waits(a, t) && a.tasks[t].Proven? {
      assert HeldBasis(a, OnCode(a.tasks[t].proof));
    }
  }

  lemma SessionFollows(a: System, t: TaskId)
    ensures Follows(a, SaveSession(a, t), t)
  {
    hide WasMinted;
    if Waits(a, t) {
      assert HeldBasis(a, BasisOf(a.tasks[t]));
    }
  }

  lemma ContactFollows(a: System, t: TaskId)
    ensures Follows(a, SaveContact(a, t), t)
  {
    hide WasMinted, Taken, ConfirmedRow;
    if Waits(a, t) {
      assert HeldBasis(a, BasisOf(a.tasks[t]));
    }
  }

  lemma ChangeFollows(a: System, t: TaskId)
    ensures Follows(a, SaveChange(a, t), t)
  {
    hide WasMinted;
    if Waits(a, t) {
      assert HeldBasis(a, BasisOf(a.tasks[t]));
    }
  }

  lemma PasswordFollows(a: System, t: TaskId, password: string)
    ensures Follows(a, SavePassword(a, t, password), t)
  {
    hide WasMinted;
    if Waits(a, t) {
      assert HeldBasis(a, BasisOf(a.tasks[t]));
    }
  }

  lemma TokenFollows(a: System, t: TaskId, token: Token, at: real)
    ensures Follows(a, AskReset(a, t, token, at), t)
  {
    hide WasMinted;
    if token in a.authorizations {
      assert HeldBasis(a, OnCode(a.authorizations[token].proof));
    }
  }

  lemma ResetFollows(a: System, t: TaskId, at: real)
    ensures Follows(a, LoadReset(a, t), t) && Follows(a, RefreshPassword(a, t, at), t)
  {
    hide WasMinted;
    if Waits(a, t) {
      assert HeldBasis(a, BasisOf(a.tasks[t]));
    }
  }

  lemma LoadFollows(cfg: Config, a: System, action: Action, at: real)
    requires action.FirstFactorLoaded? || action.ContactAsked?
    ensures Follows(a, Perform(cfg, a, action, at), action.task)
  {
    hide PassFirstFactor, PassSwitch, ReturnSend, SaveEnrol, FindRecovery, EnterCode, LoadOwner, UseProof, SaveSession, SaveContact;
    hide AskEnrol, AskDisable, SaveDisable, RefreshDisable, AskReset, LoadReset, SavePassword, RefreshPassword, ChangeRow, AskChange;
    hide SaveChange, AskPreference, SavePreference, Answered, WasMinted, Follows, AskSwitch, AskRecovery;
    MovedFollows(a, Perform(cfg, a, action, at), action.task);
  }

  lemma AskingFollows(cfg: Config, a: System, action: Action, at: real)
    requires action.SwitchAsked? || action.RecoveryAsked?
    ensures Follows(a, Perform(cfg, a, action, at), action.task)
  {
    hide PassFirstFactor, PassSwitch, ReturnSend, SaveEnrol, FindRecovery, EnterCode, LoadOwner, UseProof, SaveSession, SaveContact;
    hide AskEnrol, AskDisable, SaveDisable, RefreshDisable, AskReset, LoadReset, SavePassword, RefreshPassword, ChangeRow, AskChange;
    hide SaveChange, AskPreference, SavePreference, Answered, WasMinted, Follows, LoadFirstFactor, AskContact;
    MovedFollows(a, Perform(cfg, a, action, at), action.task);
  }

  lemma DisableFollows(cfg: Config, a: System, action: Action, at: real)
    requires action.DisableAsked? || action.DisableSaved? || action.DisableRefreshed?
    ensures Follows(a, Perform(cfg, a, action, at), action.task)
  {
    hide PassFirstFactor, PassSwitch, ReturnSend, SaveEnrol, FindRecovery, EnterCode, LoadOwner, UseProof, SaveSession, SaveContact;
    hide LoadFirstFactor, AskSwitch, AskRecovery, AskContact, AskReset, LoadReset, SavePassword, RefreshPassword, ChangeRow;
    hide SaveChange, AskEnrol, AskChange, AskPreference, SavePreference, WasMinted, Follows;
    MovedFollows(a, Perform(cfg, a, action, at), action.task);
  }

  lemma SettingFollows(cfg: Config, a: System, action: Action, at: real)
    requires action.EnrolAsked? || action.ChangeAsked? || action.PreferenceAsked? || action.PreferenceSaved? || action.Abandoned?
    ensures Follows(a, Perform(cfg, a, action, at), action.task)
  {
    hide PassFirstFactor, PassSwitch, ReturnSend, SaveEnrol, FindRecovery, EnterCode, LoadOwner, UseProof, SaveSession, SaveContact;
    hide LoadFirstFactor, AskSwitch, AskRecovery, AskContact, AskReset, LoadReset, SavePassword, RefreshPassword, ChangeRow;
    hide SaveChange, AskDisable, SaveDisable, RefreshDisable, PreferenceContact, WasMinted, Follows;
    MovedFollows(a, Perform(cfg, a, action, at), action.task);
  }

  lemma RowsFollow(a: System, action: Action)
    ensures Follows(a, ChangeRow(a, action), 0)
  {
    hide Taken, WasMinted;
  }

  /** The request whose step it is. */
  function Actor(action: Action): TaskId {
    if action.StatusChanged? || action.Registered? then 0 else action.task
  }

  lemma PerformFollows(cfg: Config, a: System, action: Action, at: real)
    ensures Follows(a, Perform(cfg, a, action, at), Actor(action))
  {
    hide Follows, PassFirstFactor, AskSwitch, PassSwitch, SaveSession, EnterCode, LoadOwner, UseProof, SaveContact, SaveEnrol;
    hide FindRecovery, AskReset, LoadReset, SavePassword, RefreshPassword, ChangeRow;
    hide AskContact, ReturnSend, AskRecovery, LoadFirstFactor, AskEnrol, AskDisable, SaveDisable, RefreshDisable;
    hide AskChange, SaveChange, AskPreference, SavePreference;
    match action
    case FirstFactorPassed(t, send) => FirstFactorFollows(cfg, a, t, send, at);
    case SwitchLoaded(t, channel, send) => SwitchFollows(cfg, a, t, channel, send, at);
    case SendReturned(t, ok) => SendFollows(cfg, a, t, ok, at);
    case CodeEntered(t, flow, challenge, code, user) => EnterFollows(cfg, a, t, flow, challenge, code, user, at);
    case OwnerLoaded(t, verdict) => OwnerFollows(cfg, a, t, verdict, at);
    case ProvenLoaded(t, token) => ProofFollows(cfg, a, t, token, at);
    case RecoveryFound(t, user, channel, send) => RecoveryFollows(cfg, a, t, user, channel, send, at);
    case EnrolSaved(t, id, ttl) => EnrolFollows(cfg, a, t, id, ttl, at);
    case SessionSaved(t) => SessionFollows(a, t);
    case ContactSaved(t) => ContactFollows(a, t);
    case ChangeSaved(t) => ChangeFollows(a, t);
    case PasswordSaved(t, password) => PasswordFollows(a, t, password);
    case ResetAsked(t, token) => TokenFollows(a, t, token, at);
    case ResetLoaded(t) => ResetFollows(a, t, at);
    case PasswordRefreshed(t) => ResetFollows(a, t, at);
    case StatusChanged(_, _) => RowsFollow(a, action);
    case Registered(_, _) => RowsFollow(a, action);
    case FirstFactorLoaded(_, _) => LoadFollows(cfg, a, action, at);
    case SwitchAsked(_, _) => AskingFollows(cfg, a, action, at);
    case RecoveryAsked(_, _) => AskingFollows(cfg, a, action, at);
    case ContactAsked(_, _, _, _, _) => LoadFollows(cfg, a, action, at);
    case DisableAsked(_, _) => DisableFollows(cfg, a, action, at);
    case DisableSaved(_) => DisableFollows(cfg, a, action, at);
    case DisableRefreshed(_) => DisableFollows(cfg, a, action, at);
    case _ => SettingFollows(cfg, a, action, at);
  }

  // -- Runs ------------------------------------------------------------------------

  /** The store is only ever asked more. */
  lemma {:induction false} RunAsks(cfg: Config, users: map<UserId, User>, actions: seq<Moment>, n: nat)
    requires n <= |actions|
    ensures Run(cfg, users, actions[..n]).calls <= Run(cfg, users, actions).calls
  {
    hide Perform;
    if n == |actions| {
      assert actions[..n] == actions;
    } else {
      var last := |actions| - 1;
      assert actions[..last][..n] == actions[..n];
      RunAsks(cfg, users, actions[..last], n);
      var before := Run(cfg, users, actions[..last]);
      PerformFollows(cfg, before.(clock := actions[last].at), actions[last].action, actions[last].at);
    }
  }
}
