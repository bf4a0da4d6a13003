/** Where two-step verification can point: an account that has it on can be served by its
    default method, except for what two kinds of step do, and only those. Settings are read
    and written in different steps of interleaving requests
    (two_factor_service.py, user_service.py). */
module AccountsSettings {
  import opened Wrappers
  import opened Otp
  import opened OtpLifecycle
  import opened Accounts

  /** The account's default method can be served. */
  predicate Ready(u: User) {
    DefaultChannel(u).Some? && Serves(u, DefaultChannel(u).value)
  }

  ghost predicate AllReady(users: map<UserId, User>) {
    forall u :: u in users && users[u].enabled ==> Ready(users[u])
  }

  // -- What goes wrong -------------------------------------------------------------

  /** A preference for an authenticator is saved on an account that has none: the profile
      update has asked for a mobile number instead. */
  predicate SavesUnserved(sys: System, a: Action) {
    a.PreferenceSaved? && Waits(sys, a.task) && sys.tasks[a.task].Preferring? && sys.tasks[a.task].user in sys.users
    && sys.tasks[a.task].channel == Totp && sys.tasks[a.task].standing != Known(Totp)
    && sys.users[sys.tasks[a.task].user].secret.None?
  }

  /** A first confirmation whose method was already the default when it loaded the row, and so
      is not written, commits after the default has become an authenticator that the account
      does not have. */
  predicate ConfirmsUnserved(sys: System, a: Action) {
    a.ContactSaved? && Waits(sys, a.task) && sys.tasks[a.task].Confirming? && sys.tasks[a.task].user in sys.users
    && var Confirming(user, _, channel, destination, loaded) := sys.tasks[a.task];
      var row := sys.users[user];
      && !loaded.enabled && loaded.preference == Known(channel) && channel != Totp
      && row.preference == Known(Totp) && row.secret.None?
      && !Taken(sys.users, user, ConfirmedRow(row, loaded, channel, destination))
  }

  /** The step leaves an account with two-step verification on and nowhere to send a code. */
  predicate Strands(sys: System, a: Action, at: real) {
    at >= sys.clock && ((SavesUnserved(sys, a) && sys.users[sys.tasks[a.task].user].enabled) || ConfirmsUnserved(sys, a))
  }

  // -- Rows ------------------------------------------------------------------------

  /** A row that was loaded earlier: its preference still stands, or gave way to one that is
      served, and its contacts are still there. When `lax`, an authenticator may have become
      the default unserved. */
  predicate Trails(now: User, loaded: User, lax: bool) {
    && (now.preference == loaded.preference || Ready(now) || (lax && now.preference == Known(Totp)))
    && (loaded.email.Some? ==> now.email.Some?) && (loaded.mobile.Some? ==> now.mobile.Some?)
  }

  /** What a request remembers agrees with the rows as they are now. */
  predicate Informed(users: map<UserId, User>, task: Task, lax: bool) {
    match task
    case LoadingOwner(flow, _, _, owner, expected) => flow == VerifyContact ==> expected == Some(owner)
    case Proven(_, c, seen, _) =>
      c.purpose == VerifyContact ==>
        if seen.None? then c.channel != Totp
        else c.user in users && Trails(users[c.user], seen.value, lax) && users[c.user].secret.Some?
    case Confirming(user, _, channel, destination, loaded) =>
      user in users && Trails(users[user], loaded, lax) && if channel == Totp then users[user].secret.Some? else destination.Some?
    case Preferring(user, channel, _) => user in users && PreferenceContact(users[user], channel).Some?
    case _ => true
  }

  ghost predicate Settled(sys: System, lax: bool) {
    AllReady(sys.users) && forall t :: t in sys.tasks ==> Informed(sys.users, sys.tasks[t], lax)
  }

  /** Contacts and secrets are never taken away, and a preference only gives way to one the
      account can serve, or to an unserved authenticator while the account is off. */
  predicate Advances(u: User, v: User, lax: bool) {
    && (u.email.Some? ==> v.email.Some?) && (u.mobile.Some? ==> v.mobile.Some?) && (u.secret.Some? ==> v.secret.Some?)
    && (v.preference == u.preference || Ready(v) || (lax && v.preference == Known(Totp)))
    && (v.enabled ==> Ready(v) || (u.enabled && v.preference == u.preference))
  }

  ghost predicate RowsAdvance(a: System, b: System, lax: bool) {
    && (forall u :: u in a.users ==> u in b.users && Advances(a.users[u], b.users[u], lax))
    && forall u :: u in b.users && u !in a.users ==> !b.users[u].enabled
  }

  lemma InformedStays(a: System, b: System, task: Task, lax: bool)
    requires RowsAdvance(a, b, lax) && Informed(a.users, task, lax)
    ensures Informed(b.users, task, lax)
  {
  }

  lemma AdvancedIsReady(u: User, v: User, lax: bool)
    requires Advances(u, v, lax) && (u.enabled ==> Ready(u))
    ensures v.enabled ==> Ready(v)
  {
  }

  /** One request moves on, and the rows advance. */
  lemma SettledStays(a: System, b: System, t: TaskId, lax: bool)
    requires Settled(a, lax) && RowsAdvance(a, b, lax) && b.tasks - {t} == a.tasks - {t}
    requires t in b.tasks ==> (t in a.tasks && b.tasks[t] == a.tasks[t]) || Informed(b.users, b.tasks[t], lax)
    ensures Settled(b, lax)
  {
    hide Informed, Advances, Ready;
    forall u | u in b.users && b.users[u].enabled ensures Ready(b.users[u]) {
      AdvancedIsReady(a.users[u], b.users[u], lax);
    }
    forall u | u in b.tasks ensures Informed(b.users, b.tasks[u], lax) {
      if u != t {
        assert u in b.tasks - {t} && (b.tasks - {t})[u] == (a.tasks - {t})[u];
      }
      if u in a.tasks && b.tasks[u] == a.tasks[u] {
        InformedStays(a, b, b.tasks[u], lax);
      }
    }
  }

  /** A confirmation advances the row it writes, unless it strands the account: a first one
      makes the confirmed method the default, and the contact or secret it needs is there. */
  lemma ConfirmedAdvances(now: User, loaded: User, channel: Channel, destination: Option<Address>, lax: bool)
    requires Trails(now, loaded, lax) && (now.enabled ==> Ready(now))
    requires if channel == Totp then now.secret.Some? else destination.Some?
    requires !(!loaded.enabled && loaded.preference == Known(channel) && channel != Totp && now.preference == Known(Totp) && now.secret.None?)
    ensures Advances(now, ConfirmedRow(now, loaded, channel, destination), lax)
  {
  }

  // -- Steps -----------------------------------------------------------------------

  /** A challenge was started or installed: no row changed, and nothing was logged. */
  ghost predicate Started(a: System, b: System, t: TaskId) {
    b.users == a.users && b.log == a.log && b.tasks - {t} == a.tasks - {t}
    && (t in b.tasks ==> (t in a.tasks && b.tasks[t] == a.tasks[t]) || b.tasks[t].Sending?)
  }

  lemma StartedSettled(a: System, b: System, t: TaskId, lax: bool)
    requires Settled(a, lax) && Started(a, b, t)
    ensures Settled(b, lax)
  {
    SettledStays(a, b, t, lax);
  }

  lemma InstallStarts(cfg: Config, a: System, t: TaskId, id: ChallengeId, purpose: Purpose, supersedes: Option<ChallengeId>, at: real)
    ensures Started(a, Install(cfg, a, t, id, purpose, supersedes, at), t)
  {
    hide Answered;
  }

  lemma TotpStarts(cfg: Config, a: System, t: TaskId, op: Operation, supersedes: Option<ChallengeId>, at: real)
    requires op.ClaimTotp?
    ensures Started(a, StartTotp(cfg, a, t, op, supersedes, at), t)
  {
    hide Answered, Install;
    InstallStarts(cfg, Asked(a, op, at), t, op.id, op.purpose, supersedes, at);
  }

  lemma LoginStarts(cfg: Config, a: System, t: TaskId, user: UserId, row: User, chosen: Option<Channel>,
                    supersedes: Option<ChallengeId>, send: SendInput, at: real)
    ensures Started(a, StartLogin(cfg, a, t, user, row, chosen, supersedes, send, at), t)
  {
    hide Answered, StartTotp, DestinationFor;
    TotpStarts(cfg, a, t, ClaimTotp(send.id, user, SignIn, None, true), supersedes, at);
  }

  /** A code judged right after its challenge was read is judged for that challenge. */
  lemma ReadThenJudged(cfg: Config, calls: seq<Call>, look: Operation, op: Operation, at: real)
    requires look.RequireLive? && op.Verify? && op.id == look.id && op.purpose == look.purpose
    ensures
      var first := Step(cfg, After(cfg, calls), look, at).answer;
      var second := Step(cfg, After(cfg, calls + [Call(look, at)]), op, at).answer;
      first.Live? && second.Verified? ==> second.challenge == first.challenge
  {
    hide Prune;
    assert (calls + [Call(look, at)])[..|calls|] == calls;
    assert After(cfg, calls + [Call(look, at)]) == Step(cfg, After(cfg, calls), look, at).state;
    JudgedIsLive(cfg, After(cfg, calls + [Call(look, at)]), op, at);
    hide VerifyStep;
  }

  lemma SameRowsAdvance(a: System, b: System, lax: bool)
    ensures b.users == a.users ==> RowsAdvance(a, b, lax)
  {
    hide Ready;
  }

  /** A request begins, goes on or ends, and no row changes. */
  lemma MovesSettled(a: System, b: System, t: TaskId, lax: bool)
    requires Settled(a, lax) && b.users == a.users
    requires b.tasks == a.tasks || b.tasks == a.tasks - {t} || (t in b.tasks && b.tasks == a.tasks[t := b.tasks[t]] && Informed(a.users, b.tasks[t], lax))
    ensures Settled(b, lax)
  {
    SameRowsAdvance(a, b, lax);
    hide Settled, RowsAdvance, Informed;
    SettledStays(a, b, t, lax);
  }

  lemma JudgeSettled(cfg: Config, a: System, t: TaskId, op: Operation, seen: Option<User>, at: real, lax: bool)
    requires op.Verify? && Settled(a, lax)
    requires Answered(cfg, a, op, at).Verified? ==> Informed(a.users, Proven(|a.calls|, Answered(cfg, a, op, at).challenge, seen, a.steps), lax)
    ensures Settled(JudgeCode(cfg, a, t, op, seen, at), lax)
  {
    hide Answered, Settled, Informed;
    MovesSettled(a, JudgeCode(cfg, a, t, op, seen, at), t, lax);
  }

  lemma EnterCodeSettled(cfg: Config, a: System, t: TaskId, flow: Purpose, challenge: ChallengeId, code: string, user: UserId, at: real, lax: bool)
    requires Settled(a, lax)
    ensures Settled(EnterCode(cfg, a, t, flow, challenge, code, user, at), lax)
  {
    var look, op := RequireLive(challenge, flow), Verify(challenge, code, flow, Expected(flow, user), None);
    ReadThenJudged(cfg, a.calls, look, op, at);
    hide Step, After, Settled, JudgeCode, Trails;
    var asked := Asked(a, look, at);
    MovesSettled(a, asked, t, lax);
    match Answered(cfg, a, look, at)
    case Live(c) =>
      if c.channel == Totp {
        var owner := if flow == VerifyContact then user else c.user;
        MovesSettled(asked, Begin(asked, t, LoadingOwner(flow, challenge, code, owner, Expected(flow, user))), t, lax);
      } else {
        JudgeSettled(cfg, asked, t, op, None, at, lax);
      }
    case _ =>
  }

  lemma LoadOwnerSettled(cfg: Config, a: System, t: TaskId, verdict: Verdict, at: real, lax: bool)
    requires Settled(a, lax)
    ensures Settled(LoadOwner(cfg, a, t, verdict, at), lax)
  {
    MovesSettled(a, End(a, t), t, lax);
    if Waits(a, t) && a.tasks[t].LoadingOwner? {
      var LoadingOwner(flow, challenge, code, owner, expected) := a.tasks[t];
      assert Informed(a.users, a.tasks[t], lax);
      var op := Verify(challenge, code, flow, expected, Some(verdict));
      JudgedIsLive(cfg, After(cfg, a.calls), op, at);
      hide Step, After, Ready, Settled, JudgeCode;
      if owner in a.users && a.users[owner].secret.Some? {
        JudgeSettled(cfg, a, t, op, Some(a.users[owner]), at, lax);
      }
    }
  }

  lemma UseProofSettled(cfg: Config, a: System, t: TaskId, token: Token, at: real, lax: bool)
    requires Settled(a, lax)
    ensures Settled(UseProof(cfg, a, t, token, at), lax)
  {
    hide WithoutExpired;
    if Waits(a, t) && a.tasks[t].Proven? {
      assert Informed(a.users, a.tasks[t], lax);
    }
    SettledStays(a, UseProof(cfg, a, t, token, at), t, lax);
  }

  lemma SaveContactSettled(cfg: Config, a: System, t: TaskId, lax: bool)
    requires Settled(a, lax) && !ConfirmsUnserved(a, ContactSaved(t))
    ensures Settled(SaveContact(a, t), lax)
  {
    hide Taken, ConfirmedRow, Ready;
    if Waits(a, t) && a.tasks[t].Confirming? {
      var Confirming(user, proof, channel, destination, loaded) := a.tasks[t];
      assert Informed(a.users, a.tasks[t], lax);
      if !Taken(a.users, user, ConfirmedRow(a.users[user], loaded, channel, destination)) {
        ConfirmedAdvances(a.users[user], loaded, channel, destination, lax);
      }
    }
    SettledStays(a, SaveContact(a, t), t, lax);
  }

  lemma SaveEnrolSettled(cfg: Config, a: System, t: TaskId, id: ChallengeId, ttl: nat, at: real, lax: bool)
    requires Settled(a, lax)
    ensures Settled(SaveEnrol(cfg, a, t, id, ttl, at), lax)
  {
    hide StartTotp, NewId;
    if Waits(a, t) && a.tasks[t].Enrolling? && a.tasks[t].user in a.users {
      var Enrolling(user, secret) := a.tasks[t];
      var stored := a.(users := a.users[user := a.users[user].(secret := Some(secret))]);
      SettledStays(a, stored, t, lax);
      TotpStarts(cfg, stored, t, ClaimTotp(id, user, VerifyContact, Some(ttl), false), None, at);
      hide Settled;
      StartedSettled(stored, StartTotp(cfg, stored, t, ClaimTotp(id, user, VerifyContact, Some(ttl), false), None, at), t, lax);
    }
    StartedSettled(a, End(a, t), t, lax);
  }

  lemma StartsSettled(cfg: Config, a: System, action: Action, at: real, lax: bool)
    requires Settled(a, lax)
    requires action.FirstFactorPassed? || action.SwitchLoaded? || action.RecoveryFound? || action.ContactAsked? || action.SendReturned?
    ensures Settled(Perform(cfg, a, action, at), lax)
  {
    hide LoadFirstFactor, AskSwitch, SaveSession, EnterCode, LoadOwner, UseProof, SaveContact, AskEnrol, SaveEnrol;
    hide AskDisable, SaveDisable, RefreshDisable, ChangeRow, AskRecovery, AskReset, LoadReset, SavePassword;
    hide RefreshPassword, AskChange, SaveChange, AskPreference, SavePreference;
    hide Answered, NewId, StartLogin, StartTotp, Install, Ready, DestinationFor, Serves, DefaultChannel;
    var t, b := action.task, Perform(cfg, a, action, at);
    if action.FirstFactorPassed? && Waits(a, t) && a.tasks[t].Identified? {
      var Identified(user, row, _) := a.tasks[t];
      LoginStarts(cfg, a, t, user, row, DefaultChannel(row), None, action.send, at);
    } else if action.SwitchLoaded? && Waits(a, t) && a.tasks[t].Switching? && a.tasks[t].user in a.users {
      var Switching(challenge, user) := a.tasks[t];
      LoginStarts(cfg, a, t, user, a.users[user], Some(action.channel), Some(challenge), action.send, at);
    } else if action.RecoveryFound? {
      TotpStarts(cfg, a, t, ClaimTotp(action.send.id, action.user, PasswordReset, None, true), None, at);
    } else if action.SendReturned? && Waits(a, t) && a.tasks[t].Sending? {
      InstallStarts(cfg, a, t, a.tasks[t].id, a.tasks[t].purpose, a.tasks[t].supersedes, at);
    }
    hide Settled, Informed;
    if t in b.tasks && b.tasks[t].Issuing? {
      Uninvolved(a.users, b.tasks[t], lax);
      MovesSettled(a, b, t, lax);
    } else {
      StartedSettled(a, b, t, lax);
    }
  }

  lemma RowsSettled(cfg: Config, a: System, action: Action, at: real, lax: bool)
    requires Settled(a, lax) && (action.StatusChanged? || action.Registered?)
    ensures Settled(Perform(cfg, a, action, at), lax)
  {
    hide LoadFirstFactor, PassFirstFactor, AskSwitch, PassSwitch, SaveSession, AskContact, ReturnSend, EnterCode;
    hide LoadOwner, UseProof, SaveContact, AskEnrol, SaveEnrol, AskDisable, SaveDisable, RefreshDisable, AskRecovery;
    hide FindRecovery, AskReset, LoadReset, SavePassword, RefreshPassword;
    hide Taken, Trails, Informed;
    var b := Perform(cfg, a, action, at);
    if b.users != a.users {
      SettledStays(a, b, 0, lax);
    }
  }

  lemma AskPreferenceSettled(cfg: Config, a: System, t: TaskId, user: UserId, channel: Channel, lax: bool)
    requires Settled(a, lax)
    ensures Settled(AskPreference(a, t, user, channel), lax)
  {
    hide Settled;
    MovesSettled(a, AskPreference(a, t, user, channel), t, lax);
  }

  lemma SavePreferenceSettled(cfg: Config, a: System, t: TaskId, lax: bool)
    requires Settled(a, lax)
    requires SavesUnserved(a, PreferenceSaved(t)) ==> lax && !a.users[a.tasks[t].user].enabled
    ensures Settled(SavePreference(a, t), lax)
  {
    if Waits(a, t) && a.tasks[t].Preferring? {
      assert Informed(a.users, a.tasks[t], lax);
    }
    hide Informed, Settled;
    SettledStays(a, SavePreference(a, t), t, lax);
  }

  lemma OthersSettled(cfg: Config, a: System, action: Action, at: real, lax: bool)
    requires Settled(a, lax)
    requires action.FirstFactorLoaded? || action.SwitchAsked? || action.RecoveryAsked? || action.SessionSaved? || action.EnrolAsked?
      || action.Abandoned? || action.ChangeAsked?
    ensures Settled(Perform(cfg, a, action, at), lax)
  {
    hide PassFirstFactor, PassSwitch, AskContact, ReturnSend, EnterCode, LoadOwner, UseProof, SaveContact;
    hide SaveEnrol, AskDisable, SaveDisable, RefreshDisable, ChangeRow, FindRecovery, AskReset, LoadReset;
    hide SavePassword, RefreshPassword, SaveChange, AskPreference, SavePreference;
    hide Answered, Settled, Informed;
    var b, t := Perform(cfg, a, action, at), action.task;
    if t in b.tasks && b.tasks != a.tasks {
      Uninvolved(a.users, b.tasks[t], lax);
    }
    MovesSettled(a, b, t, lax);
  }

  lemma ResetsSettled(cfg: Config, a: System, action: Action, at: real, lax: bool)
    requires Settled(a, lax)
    requires action.DisableAsked? || action.DisableRefreshed? || action.ResetAsked? || action.ResetLoaded? || action.PasswordRefreshed?
    ensures Settled(Perform(cfg, a, action, at), lax)
  {
    hide LoadFirstFactor, PassFirstFactor, AskSwitch, PassSwitch, SaveSession, AskContact, ReturnSend, EnterCode;
    hide LoadOwner, UseProof, SaveContact, AskEnrol, SaveEnrol, SaveDisable, ChangeRow, AskRecovery, FindRecovery;
    hide SavePassword, AskChange, SaveChange, AskPreference, SavePreference;
    hide WithoutExpired, WithoutUser, Settled, Informed;
    var b, t := Perform(cfg, a, action, at), action.task;
    if t in b.tasks && b.tasks != a.tasks {
      Uninvolved(a.users, b.tasks[t], lax);
    }
    MovesSettled(a, b, t, lax);
  }

  /** Most of what a request remembers does not depend on a row. */
  lemma Uninvolved(users: map<UserId, User>, task: Task, lax: bool)
    ensures !task.LoadingOwner? && !task.Proven? && !task.Confirming? && !task.Preferring? ==> Informed(users, task, lax)
  {
  }

  lemma SaveDisableSettled(a: System, t: TaskId, lax: bool)
    requires Settled(a, lax)
    ensures Settled(SaveDisable(a, t), lax)
  {
    hide Settled, Ready, Informed;
    var b := SaveDisable(a, t);
    if t in b.tasks {
      Uninvolved(b.users, b.tasks[t], lax);
    }
    SettledStays(a, b, t, lax);
  }

  lemma PasswordsSettled(a: System, t: TaskId, password: string, lax: bool)
    requires Settled(a, lax)
    ensures Settled(SavePassword(a, t, password), lax) && Settled(SaveChange(a, t), lax)
  {
    hide Settled, Ready, Informed;
    var b := SavePassword(a, t, password);
    if t in b.tasks {
      Uninvolved(b.users, b.tasks[t], lax);
    }
    SettledStays(a, b, t, lax);
    SettledStays(a, SaveChange(a, t), t, lax);
  }

  lemma PerformIsSettled(cfg: Config, a: System, action: Action, at: real, lax: bool)
    requires Settled(a, lax) && !ConfirmsUnserved(a, action)
    requires SavesUnserved(a, action) ==> lax && !a.users[a.tasks[action.task].user].enabled
    ensures Settled(Perform(cfg, a, action, at), lax)
  {
    hide Settled, PassFirstFactor, AskSwitch, PassSwitch, SaveSession, EnterCode, LoadOwner, UseProof, SaveContact, SaveEnrol;
    hide FindRecovery, AskReset, LoadReset, SavePassword, RefreshPassword, ChangeRow;
    hide AskContact, ReturnSend, AskRecovery, LoadFirstFactor, AskEnrol, AskDisable, SaveDisable, RefreshDisable;
    hide AskChange, SaveChange, AskPreference, SavePreference, ConfirmsUnserved, SavesUnserved;
    match action
    case CodeEntered(t, flow, challenge, code, user) => EnterCodeSettled(cfg, a, t, flow, challenge, code, user, at, lax);
    case OwnerLoaded(t, verdict) => LoadOwnerSettled(cfg, a, t, verdict, at, lax);
    case ProvenLoaded(t, token) => UseProofSettled(cfg, a, t, token, at, lax);
    case ContactSaved(t) => SaveContactSettled(cfg, a, t, lax);
    case EnrolSaved(t, id, ttl) => SaveEnrolSettled(cfg, a, t, id, ttl, at, lax);
    case PreferenceAsked(t, user, channel) => AskPreferenceSettled(cfg, a, t, user, channel, lax);
    case PreferenceSaved(t) => SavePreferenceSettled(cfg, a, t, lax);
    case FirstFactorPassed(_, _) => StartsSettled(cfg, a, action, at, lax);
    case SwitchLoaded(_, _, _) => StartsSettled(cfg, a, action, at, lax);
    case RecoveryFound(_, _, _, _) => StartsSettled(cfg, a, action, at, lax);
    case ContactAsked(_, _, _, _, _) => StartsSettled(cfg, a, action, at, lax);
    case SendReturned(_, _) => StartsSettled(cfg, a, action, at, lax);
    case StatusChanged(_, _) => RowsSettled(cfg, a, action, at, lax);
    case Registered(_, _) => RowsSettled(cfg, a, action, at, lax);
    case DisableSaved(t) => SaveDisableSettled(a, t, lax);
    case PasswordSaved(t, password) => PasswordsSettled(a, t, password, lax);
    case ChangeSaved(t) => PasswordsSettled(a, t, "", lax);
    case DisableAsked(_, _) => ResetsSettled(cfg, a, action, at, lax);
    case DisableRefreshed(_) => ResetsSettled(cfg, a, action, at, lax);
    case ResetAsked(_, _) => ResetsSettled(cfg, a, action, at, lax);
    case ResetLoaded(_) => ResetsSettled(cfg, a, action, at, lax);
    case PasswordRefreshed(_) => ResetsSettled(cfg, a, action, at, lax);
    case _ => OthersSettled(cfg, a, action, at, lax);
  }

  /** While no unserved authenticator is ever made the default, no confirmation strands. */
  lemma StrictConfirms(sys: System, a: Action)
    requires Settled(sys, false)
    ensures !ConfirmsUnserved(sys, a)
  {
    hide Taken, ConfirmedRow;
    if a.ContactSaved? && Waits(sys, a.task) {
      assert Informed(sys.users, sys.tasks[a.task], false);
    }
  }

  /** The step neither strands an account nor, when not `lax`, saves an unserved default. */
  predicate Harmless(sys: System, a: Action, at: real, lax: bool) {
    !Strands(sys, a, at) && (at >= sys.clock && SavesUnserved(sys, a) ==> lax)
  }

  lemma NextIsSettled(cfg: Config, sys: System, a: Action, at: real, lax: bool)
    requires Settled(sys, lax) && Harmless(sys, a, at, lax)
    ensures Settled(Next(cfg, sys, a, at), lax)
  {
    hide Perform, Informed, AllReady, Taken, ConfirmedRow;
    if at >= sys.clock {
      PerformIsSettled(cfg, sys.(clock := at), a, at, lax);
    }
  }

  lemma {:induction false} HarmlessRunIsSettled(cfg: Config, users: map<UserId, User>, actions: seq<Moment>, lax: bool)
    requires Fresh(users)
    requires forall n :: 0 <= n < |actions| ==> Harmless(Run(cfg, users, actions[..n]), actions[n].action, actions[n].at, lax)
    ensures Settled(Run(cfg, users, actions), lax)
  {
    hide Next, Informed, Harmless;
    if actions != [] {
      var n := |actions| - 1;
      var before := actions[..n];
      assert forall k :: 0 <= k < n ==> before[..k] == actions[..k];
      HarmlessRunIsSettled(cfg, users, before, lax);
      assert Harmless(Run(cfg, users, before), actions[n].action, actions[n].at, lax);
      NextIsSettled(cfg, Run(cfg, users, before), actions[n].action, actions[n].at, lax);
    }
  }

  lemma StrandsIndeed(cfg: Config, sys: System, a: Action, at: real)
    requires Strands(sys, a, at)
    ensures !AllReady(Next(cfg, sys, a, at).users)
  {
    hide Taken;
    var user := sys.tasks[a.task].user;
    var after := Next(cfg, sys, a, at).users;
    assert user in after && after[user].enabled && after[user].preference == Known(Totp) && after[user].secret.None?;
  }

  /** Nobody is ever stranded, exactly when no step strands: in a run from accounts with
      two-step verification off, every account that has it on can at every moment be served
      by its default method if and only if no unserved authenticator is saved as the default
      of an account that has it on, and no first confirmation is overtaken by such a save. */
  lemma ReadyUnlessStranded(cfg: Config, users: map<UserId, User>, actions: seq<Moment>)
    requires Fresh(users)
    ensures (forall n :: 0 <= n <= |actions| ==> AllReady(Run(cfg, users, actions[..n]).users))
      <==> (forall n :: 0 <= n < |actions| ==> !Strands(Run(cfg, users, actions[..n]), actions[n].action, actions[n].at))
  {
    hide Next, AllReady, Strands, Informed, Run;
    if forall n :: 0 <= n < |actions| ==> !Strands(Run(cfg, users, actions[..n]), actions[n].action, actions[n].at) {
      forall n | 0 <= n <= |actions| ensures AllReady(Run(cfg, users, actions[..n]).users) {
        var before := actions[..n];
        forall k | 0 <= k < n ensures Harmless(Run(cfg, users, before[..k]), before[k].action, before[k].at, true) {
          assert before[..k] == actions[..k];
        }
        HarmlessRunIsSettled(cfg, users, before, true);
      }
    }
    if forall n :: 0 <= n <= |actions| ==> AllReady(Run(cfg, users, actions[..n]).users) {
      forall n | 0 <= n < |actions| ensures !Strands(Run(cfg, users, actions[..n]), actions[n].action, actions[n].at) {
        RunNext(cfg, users, actions, n);
        assert AllReady(Run(cfg, users, actions[..n + 1]).users);
        if Strands(Run(cfg, users, actions[..n]), actions[n].action, actions[n].at) {
          StrandsIndeed(cfg, Run(cfg, users, actions[..n]), actions[n].action, actions[n].at);
        }
      }
    }
  }

  predicate UnservedDefault(sys: System, m: Moment) {
    m.at >= sys.clock && SavesUnserved(sys, m.action)
  }

  /** So in every run in which an authenticator is only ever saved as the default of an
      account that has one, no sign-in finds nowhere to send a code. */
  lemma EnabledIsReady(cfg: Config, users: map<UserId, User>, actions: seq<Moment>, user: UserId)
    requires Fresh(users)
    requires forall n :: 0 <= n < |actions| ==> !UnservedDefault(Run(cfg, users, actions[..n]), actions[n])
    ensures var now := Run(cfg, users, actions).users; user in now && now[user].enabled ==> Ready(now[user])
  {
    hide Run, Ready, SavesUnserved, ConfirmsUnserved, Informed;
    StrictRunIsSettled(cfg, users, actions);
  }

  lemma {:induction false} StrictRunIsSettled(cfg: Config, users: map<UserId, User>, actions: seq<Moment>)
    requires Fresh(users)
    requires forall n :: 0 <= n < |actions| ==> !UnservedDefault(Run(cfg, users, actions[..n]), actions[n])
    ensures Settled(Run(cfg, users, actions), false)
  {
    hide Next, Informed, SavesUnserved, ConfirmsUnserved;
    if actions != [] {
      var n := |actions| - 1;
      var before := actions[..n];
      assert forall k :: 0 <= k < n ==> before[..k] == actions[..k];
      StrictRunIsSettled(cfg, users, before);
      assert !UnservedDefault(Run(cfg, users, before), actions[n]);
      StrictConfirms(Run(cfg, users, before), actions[n].action);
      NextIsSettled(cfg, Run(cfg, users, before), actions[n].action, actions[n].at, false);
    }
  }
}
