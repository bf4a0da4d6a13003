/** What requests remember of the rows they loaded, and what follows for the sessions and
    passwords they leave behind: a session lacks a code exactly when its request had loaded
    the account with two-step verification off, and a changed password was earned. */
module AccountsSessions {
  import opened Wrappers
  import opened Otp
  import opened OtpLifecycle
  import opened Accounts
  import opened AccountsProofs
  import opened AccountsSettings
  import opened AccountsOrder
  import opened AccountsRows

  // -- Memory ----------------------------------------------------------------------

  /** The user's row after `n` steps of the run. */
  ghost predicate Held(cfg: Config, users: map<UserId, User>, actions: seq<Moment>, n: nat, user: UserId, row: User) {
    n <= |actions| && user in Run(cfg, users, actions[..n]).users && Run(cfg, users, actions[..n]).users[user] == row
  }

  /** After `n` steps the account was active, and its two-step verification was off exactly
      when there is no proof. */
  ghost predicate Entitled(cfg: Config, users: map<UserId, User>, actions: seq<Moment>, n: nat, user: UserId, proof: Option<nat>) {
    n <= |actions| && user in Run(cfg, users, actions[..n]).users
    && var row := Run(cfg, users, actions[..n]).users[user];
      row.active && (proof.None? <==> !row.enabled)
  }

  /** The owner gave the password the row held at the time, or the row held none. */
  ghost predicate Earned(cfg: Config, users: map<UserId, User>, actions: seq<Moment>, change: OwnChange) {
    var n := change.loadedAt;
    n <= |actions| && change.user in Run(cfg, users, actions[..n]).users
    && Run(cfg, users, actions[..n]).users[change.user].password == change.held
    && (change.held.None? || change.held == Some(change.given))
  }

  ghost predicate Remembers(cfg: Config, users: map<UserId, User>, actions: seq<Moment>, task: Task) {
    match task
    case Identified(user, row, n) => Held(cfg, users, actions, n, user, row)
    case Proven(_, c, seen, n) => seen.Some? ==> Held(cfg, users, actions, n, c.user, seen.value)
    case Issuing(user, n, proof) => Entitled(cfg, users, actions, n, user, proof)
    case Changing(change) => Earned(cfg, users, actions, change)
    case _ => true
  }

  ghost predicate SessionEntitled(cfg: Config, users: map<UserId, User>, actions: seq<Moment>, s: Session) {
    s.loadedAt <= s.issuedAt <= |actions| && Entitled(cfg, users, actions, s.loadedAt, s.user, s.proof)
  }

  ghost predicate AllRemember(cfg: Config, users: map<UserId, User>, actions: seq<Moment>, sys: System) {
    && (forall t :: t in sys.tasks ==> Remembers(cfg, users, actions, sys.tasks[t]))
    && (forall i :: 0 <= i < |sys.log.sessions| ==> SessionEntitled(cfg, users, actions, sys.log.sessions[i]))
    && forall i :: 0 <= i < |sys.log.changes| ==> Earned(cfg, users, actions, sys.log.changes[i])
  }

  /** The system holds the rows of the run so far. */
  ghost predicate Present(cfg: Config, users: map<UserId, User>, actions: seq<Moment>, sys: System) {
    sys.users == Run(cfg, users, actions).users && sys.steps == |actions|
  }

  lemma PresentRow(cfg: Config, users: map<UserId, User>, actions: seq<Moment>, sys: System, user: UserId)
    requires Present(cfg, users, actions, sys) && user in sys.users
    ensures Held(cfg, users, actions, sys.steps, user, sys.users[user])
  {
    hide Run;
    assert actions[..|actions|] == actions;
  }

  lemma HeldEntitles(cfg: Config, users: map<UserId, User>, actions: seq<Moment>, n: nat, user: UserId, row: User, proof: Option<nat>)
    requires Held(cfg, users, actions, n, user, row) && row.active && (proof.None? <==> !row.enabled)
    ensures Entitled(cfg, users, actions, n, user, proof)
  {
    hide Run;
  }

  /** Memory is of the past, so it outlasts every further step. */
  lemma RemembersLonger(cfg: Config, users: map<UserId, User>, actions: seq<Moment>, m: Moment, sys: System)
    requires AllRemember(cfg, users, actions, sys)
    ensures AllRemember(cfg, users, actions + [m], sys)
  {
    hide Run;
    assert forall n :: 0 <= n <= |actions| ==> (actions + [m])[..n] == actions[..n];
  }

  // -- Steps -----------------------------------------------------------------------

  /** One request moves on; what it remembers now is true. */
  lemma MemoryStays(cfg: Config, users: map<UserId, User>, actions: seq<Moment>, a: System, b: System, t: TaskId)
    requires AllRemember(cfg, users, actions, a) && b.tasks - {t} == a.tasks - {t}
    requires b.log.sessions == a.log.sessions && b.log.changes == a.log.changes
    requires t in b.tasks ==> (t in a.tasks && b.tasks[t] == a.tasks[t]) || Remembers(cfg, users, actions, b.tasks[t])
    ensures AllRemember(cfg, users, actions, b)
  {
    hide Remembers, SessionEntitled, Earned;
    forall u | u in b.tasks ensures Remembers(cfg, users, actions, b.tasks[u]) {
      if u != t {
        assert u in b.tasks - {t} && (b.tasks - {t})[u] == (a.tasks - {t})[u];
      }
    }
  }

  /** Most requests remember nothing of the past. */
  predicate Forgetful(task: Task) {
    !task.Identified? && !task.Proven? && !task.Issuing? && !task.Changing?
  }

  lemma ForgetfulRemembers(cfg: Config, users: map<UserId, User>, actions: seq<Moment>, task: Task)
    requires Forgetful(task)
    ensures Remembers(cfg, users, actions, task)
  {
    hide Held, Entitled, Earned;
  }

  lemma StartedRemembers(cfg: Config, users: map<UserId, User>, actions: seq<Moment>, a: System, b: System, t: TaskId)
    requires AllRemember(cfg, users, actions, a) && Started(a, b, t)
    ensures AllRemember(cfg, users, actions, b)
  {
    hide AllRemember, Remembers;
    if t in b.tasks && b.tasks[t].Sending? {
      ForgetfulRemembers(cfg, users, actions, b.tasks[t]);
    }
    MemoryStays(cfg, users, actions, a, b, t);
  }

  lemma LoadRemembers(cfg: Config, users: map<UserId, User>, actions: seq<Moment>, a: System, t: TaskId, user: UserId)
    requires AllRemember(cfg, users, actions, a) && Present(cfg, users, actions, a)
    ensures AllRemember(cfg, users, actions, LoadFirstFactor(a, t, user))
  {
    hide AllRemember, Run, Held;
    if user in a.users {
      PresentRow(cfg, users, actions, a, user);
    }
    MemoryStays(cfg, users, actions, a, LoadFirstFactor(a, t, user), t);
  }

  lemma FirstFactorRemembers(cfg: Config, users: map<UserId, User>, actions: seq<Moment>, a: System, t: TaskId, send: SendInput, at: real)
    requires AllRemember(cfg, users, actions, a)
    ensures AllRemember(cfg, users, actions, PassFirstFactor(cfg, a, t, send, at))
  {
    hide Held, Entitled, StartLogin, NewId, DefaultChannel;
    MemoryStays(cfg, users, actions, a, End(a, t), t);
    if Waits(a, t) && a.tasks[t].Identified? {
      var Identified(user, row, n) := a.tasks[t];
      assert Remembers(cfg, users, actions, a.tasks[t]);
      LoginStarts(cfg, a, t, user, row, DefaultChannel(row), None, send, at);
      hide AllRemember;
      StartedRemembers(cfg, users, actions, a, StartLogin(cfg, a, t, user, row, DefaultChannel(row), None, send, at), t);
      if row.active && !row.enabled {
        HeldEntitles(cfg, users, actions, n, user, row, None);
        MemoryStays(cfg, users, actions, a, Begin(a, t, Issuing(user, n, None)), t);
      }
    }
  }

  lemma StartsRemember(cfg: Config, users: map<UserId, User>, actions: seq<Moment>, a: System, action: Action, at: real)
    requires AllRemember(cfg, users, actions, a)
    requires action.SwitchLoaded? || action.RecoveryFound? || action.SendReturned?
    ensures AllRemember(cfg, users, actions, Perform(cfg, a, action, at))
  {
    hide LoadFirstFactor, PassFirstFactor, AskSwitch, SaveSession, AskContact, EnterCode, LoadOwner, UseProof, SaveContact, AskEnrol;
    hide SaveEnrol, AskDisable, SaveDisable, RefreshDisable, ChangeRow, AskRecovery, AskReset, LoadReset, SavePassword;
    hide RefreshPassword, AskChange, SaveChange, AskPreference, SavePreference;
    hide AllRemember, Answered, NewId, DestinationFor, Serves, StartLogin, StartTotp, Install;
    var t, b := action.task, Perform(cfg, a, action, at);
    if action.SwitchLoaded? && Waits(a, t) && a.tasks[t].Switching? && a.tasks[t].user in a.users {
      var Switching(challenge, user) := a.tasks[t];
      LoginStarts(cfg, a, t, user, a.users[user], Some(action.channel), Some(challenge), action.send, at);
    } else if action.SendReturned? && Waits(a, t) && a.tasks[t].Sending? {
      InstallStarts(cfg, a, t, a.tasks[t].id, a.tasks[t].purpose, a.tasks[t].supersedes, at);
    } else if action.RecoveryFound? {
      TotpStarts(cfg, a, t, ClaimTotp(action.send.id, action.user, PasswordReset, None, true), None, at);
    }
    StartedRemembers(cfg, users, actions, a, b, t);
  }

  lemma EnrolRemembers(cfg: Config, users: map<UserId, User>, actions: seq<Moment>, a: System, t: TaskId, id: ChallengeId, ttl: nat, at: real)
    requires AllRemember(cfg, users, actions, a)
    ensures AllRemember(cfg, users, actions, SaveEnrol(cfg, a, t, id, ttl, at))
  {
    hide AllRemember, Remembers, NewId, StartTotp;
    MemoryStays(cfg, users, actions, a, End(a, t), t);
    if Waits(a, t) && a.tasks[t].Enrolling? && a.tasks[t].user in a.users {
      var Enrolling(user, secret) := a.tasks[t];
      var stored := a.(users := a.users[user := a.users[user].(secret := Some(secret))]);
      MemoryStays(cfg, users, actions, a, stored, t);
      var claim := ClaimTotp(id, user, VerifyContact, Some(ttl), false);
      TotpStarts(cfg, stored, t, claim, None, at);
      StartedRemembers(cfg, users, actions, stored, StartTotp(cfg, stored, t, claim, None, at), t);
    }
  }

  lemma EnterCodeRemembers(cfg: Config, users: map<UserId, User>, actions: seq<Moment>, a: System, t: TaskId, flow: Purpose,
                           challenge: ChallengeId, code: string, user: UserId, at: real)
    requires AllRemember(cfg, users, actions, a)
    ensures AllRemember(cfg, users, actions, EnterCode(cfg, a, t, flow, challenge, code, user, at))
  {
    hide AllRemember, Answered, Held, Entitled, Earned;
    MemoryStays(cfg, users, actions, a, EnterCode(cfg, a, t, flow, challenge, code, user, at), t);
  }

  /** The row loaded before an authenticator code is judged is that of the challenge's user. */
  lemma JudgedForOwner(cfg: Config, a: System, t: TaskId, verdict: Verdict, at: real)
    requires Orderly(cfg, a) && Waits(a, t) && a.tasks[t].LoadingOwner?
    ensures
      var LoadingOwner(flow, challenge, code, owner, expected) := a.tasks[t];
      var answer := Answered(cfg, a, Verify(challenge, code, flow, expected, Some(verdict)), at);
      answer.Verified? ==> answer.challenge.user == owner
  {
    hide Step, After, Dead, NeverLive, ProperCalls;
    var LoadingOwner(flow, challenge, code, owner, expected) := a.tasks[t];
    assert InOrder(cfg, a.calls, a.tasks[t]);
    JudgedIsLive(cfg, After(cfg, a.calls), Verify(challenge, code, flow, expected, Some(verdict)), at);
  }

  lemma LoadOwnerRemembers(cfg: Config, users: map<UserId, User>, actions: seq<Moment>, a: System, t: TaskId, verdict: Verdict, at: real)
    requires AllRemember(cfg, users, actions, a) && Present(cfg, users, actions, a) && Orderly(cfg, a)
    ensures AllRemember(cfg, users, actions, LoadOwner(cfg, a, t, verdict, at))
  {
    hide AllRemember, Answered, Held, Entitled, Earned, Orderly, Run;
    if Waits(a, t) && a.tasks[t].LoadingOwner? {
      JudgedForOwner(cfg, a, t, verdict, at);
      if a.tasks[t].owner in a.users {
        PresentRow(cfg, users, actions, a, a.tasks[t].owner);
      }
    }
    MemoryStays(cfg, users, actions, a, LoadOwner(cfg, a, t, verdict, at), t);
  }

  lemma UseProofRemembers(cfg: Config, users: map<UserId, User>, actions: seq<Moment>, a: System, t: TaskId, token: Token, at: real)
    requires AllRemember(cfg, users, actions, a) && Present(cfg, users, actions, a)
    ensures AllRemember(cfg, users, actions, UseProof(cfg, a, t, token, at))
  {
    hide Held, Entitled, Earned, Run, WithoutExpired, SessionEntitled;
    if Waits(a, t) && a.tasks[t].Proven? && a.tasks[t].c.user in a.users {
      var Proven(proof, c, seen, seenAt) := a.tasks[t];
      assert Remembers(cfg, users, actions, a.tasks[t]);
      PresentRow(cfg, users, actions, a, c.user);
      var row := if seen.Some? then seen.value else a.users[c.user];
      if row.active && row.enabled {
        HeldEntitles(cfg, users, actions, if seen.Some? then seenAt else a.steps, c.user, row, Some(proof));
      }
    }
    hide AllRemember;
    MemoryStays(cfg, users, actions, a, UseProof(cfg, a, t, token, at), t);
  }

  lemma SaveSessionRemembers(cfg: Config, users: map<UserId, User>, actions: seq<Moment>, a: System, t: TaskId)
    requires AllRemember(cfg, users, actions, a) && Present(cfg, users, actions, a)
    ensures AllRemember(cfg, users, actions, SaveSession(a, t))
  {
    hide Run, Held, Earned;
    if Waits(a, t) && a.tasks[t].Issuing? {
      assert Remembers(cfg, users, actions, a.tasks[t]);
    }
  }

  lemma ChangeRemembers(cfg: Config, users: map<UserId, User>, actions: seq<Moment>, a: System, t: TaskId, user: UserId,
                        given: string, password: string)
    requires AllRemember(cfg, users, actions, a) && Present(cfg, users, actions, a)
    ensures AllRemember(cfg, users, actions, AskChange(a, t, user, given, password))
    ensures AllRemember(cfg, users, actions, SaveChange(a, t))
  {
    hide Run, Held, Entitled;
    assert actions[..|actions|] == actions;
    if Waits(a, t) && a.tasks[t].Changing? {
      assert Remembers(cfg, users, actions, a.tasks[t]);
    }
  }

  lemma PlainStepsRemember(cfg: Config, users: map<UserId, User>, actions: seq<Moment>, a: System, action: Action, at: real)
    requires AllRemember(cfg, users, actions, a)
    requires action.SwitchAsked? || action.ContactAsked? || action.RecoveryAsked?
    ensures AllRemember(cfg, users, actions, Perform(cfg, a, action, at))
  {
    hide LoadFirstFactor, PassFirstFactor, PassSwitch, SaveSession, EnterCode, LoadOwner, UseProof, SaveEnrol, ChangeRow, AskReset;
    hide LoadReset, SavePassword, RefreshPassword, AskChange, SaveChange, AskPreference, SavePreference, FindRecovery, ReturnSend;
    hide SaveContact, AskEnrol, AskDisable, SaveDisable, RefreshDisable, AllRemember, Remembers, Answered, NewId;
    var t, b := action.task, Perform(cfg, a, action, at);
    if t in b.tasks && Forgetful(b.tasks[t]) {
      ForgetfulRemembers(cfg, users, actions, b.tasks[t]);
    }
    MemoryStays(cfg, users, actions, a, b, t);
  }

  lemma DisablingRemembers(cfg: Config, users: map<UserId, User>, actions: seq<Moment>, a: System, action: Action, at: real)
    requires AllRemember(cfg, users, actions, a) && (action.DisableAsked? || action.DisableSaved? || action.DisableRefreshed?)
    ensures AllRemember(cfg, users, actions, Perform(cfg, a, action, at))
  {
    hide LoadFirstFactor, PassFirstFactor, AskSwitch, PassSwitch, SaveSession, AskContact, ReturnSend, EnterCode, LoadOwner, UseProof;
    hide SaveContact, AskEnrol, SaveEnrol, ChangeRow, AskRecovery, FindRecovery, AskReset, LoadReset, SavePassword, RefreshPassword;
    hide AskChange, SaveChange, AskPreference, SavePreference, AllRemember, Remembers;
    var t, b := action.task, Perform(cfg, a, action, at);
    if t in b.tasks && Forgetful(b.tasks[t]) {
      ForgetfulRemembers(cfg, users, actions, b.tasks[t]);
    }
    MemoryStays(cfg, users, actions, a, b, t);
  }

  lemma SettingsRemember(cfg: Config, users: map<UserId, User>, actions: seq<Moment>, a: System, action: Action, at: real)
    requires AllRemember(cfg, users, actions, a)
    requires action.ContactSaved? || action.EnrolAsked? || action.PreferenceAsked? || action.PreferenceSaved? || action.Abandoned?
    ensures AllRemember(cfg, users, actions, Perform(cfg, a, action, at))
  {
    hide LoadFirstFactor, PassFirstFactor, AskSwitch, PassSwitch, SaveSession, AskContact, ReturnSend, EnterCode, LoadOwner, UseProof;
    hide SaveEnrol, AskDisable, SaveDisable, RefreshDisable, ChangeRow, AskRecovery, FindRecovery, AskReset, LoadReset;
    hide SavePassword, RefreshPassword, AskChange, SaveChange, AllRemember, Remembers, PreferenceContact, Taken, ConfirmedRow;
    var t, b := action.task, Perform(cfg, a, action, at);
    if t in b.tasks && Forgetful(b.tasks[t]) {
      ForgetfulRemembers(cfg, users, actions, b.tasks[t]);
    }
    MemoryStays(cfg, users, actions, a, b, t);
  }

  lemma ResetStepsRemember(cfg: Config, users: map<UserId, User>, actions: seq<Moment>, a: System, action: Action, at: real)
    requires AllRemember(cfg, users, actions, a)
    requires action.ResetAsked? || action.ResetLoaded? || action.PasswordSaved? || action.PasswordRefreshed?
    ensures AllRemember(cfg, users, actions, Perform(cfg, a, action, at))
  {
    hide LoadFirstFactor, PassFirstFactor, AskSwitch, PassSwitch, SaveSession, AskContact, ReturnSend, EnterCode, LoadOwner, UseProof;
    hide SaveContact, AskEnrol, SaveEnrol, AskDisable, SaveDisable, RefreshDisable, ChangeRow, AskRecovery, FindRecovery;
    hide AskChange, SaveChange, AskPreference, SavePreference, AllRemember, Remembers, WithoutExpired, WithoutUser;
    var t, b := action.task, Perform(cfg, a, action, at);
    if t in b.tasks && Forgetful(b.tasks[t]) {
      ForgetfulRemembers(cfg, users, actions, b.tasks[t]);
    }
    MemoryStays(cfg, users, actions, a, b, t);
  }

  lemma RowsRemember(cfg: Config, users: map<UserId, User>, actions: seq<Moment>, a: System, action: Action)
    requires AllRemember(cfg, users, actions, a)
    ensures AllRemember(cfg, users, actions, ChangeRow(a, action))
  {
    hide AllRemember, Remembers, Taken;
    MemoryStays(cfg, users, actions, a, ChangeRow(a, action), 0);
  }

  lemma PerformRemembers(cfg: Config, users: map<UserId, User>, actions: seq<Moment>, a: System, action: Action, at: real)
    requires AllRemember(cfg, users, actions, a) && Present(cfg, users, actions, a) && Orderly(cfg, a)
    ensures AllRemember(cfg, users, actions, Perform(cfg, a, action, at))
  {
    hide AllRemember, Present, Orderly, PassFirstFactor, AskSwitch, PassSwitch, SaveSession, EnterCode, LoadOwner, UseProof, SaveContact;
    hide SaveEnrol, FindRecovery, AskReset, LoadReset, SavePassword, RefreshPassword, ChangeRow;
    hide AskContact, ReturnSend, AskRecovery, LoadFirstFactor, AskEnrol, AskDisable, SaveDisable, RefreshDisable;
    hide AskChange, SaveChange, AskPreference, SavePreference;
    match action
    case FirstFactorLoaded(t, user) => LoadRemembers(cfg, users, actions, a, t, user);
    case FirstFactorPassed(t, send) => FirstFactorRemembers(cfg, users, actions, a, t, send, at);
    case SwitchLoaded(_, _, _) => StartsRemember(cfg, users, actions, a, action, at);
    case RecoveryFound(_, _, _, _) => StartsRemember(cfg, users, actions, a, action, at);
    case SendReturned(_, _) => StartsRemember(cfg, users, actions, a, action, at);
    case EnrolSaved(t, id, ttl) => EnrolRemembers(cfg, users, actions, a, t, id, ttl, at);
    case CodeEntered(t, flow, challenge, code, user) => EnterCodeRemembers(cfg, users, actions, a, t, flow, challenge, code, user, at);
    case OwnerLoaded(t, verdict) => LoadOwnerRemembers(cfg, users, actions, a, t, verdict, at);
    case ProvenLoaded(t, token) => UseProofRemembers(cfg, users, actions, a, t, token, at);
    case SessionSaved(t) => SaveSessionRemembers(cfg, users, actions, a, t);
    case ChangeAsked(t, user, given, password) => ChangeRemembers(cfg, users, actions, a, t, user, given, password);
    case ChangeSaved(t) => ChangeRemembers(cfg, users, actions, a, t, 0, "", "");
    case StatusChanged(_, _) => RowsRemember(cfg, users, actions, a, action);
    case Registered(_, _) => RowsRemember(cfg, users, actions, a, action);
    case SwitchAsked(_, _) => PlainStepsRemember(cfg, users, actions, a, action, at);
    case ContactAsked(_, _, _, _, _) => PlainStepsRemember(cfg, users, actions, a, action, at);
    case RecoveryAsked(_, _) => PlainStepsRemember(cfg, users, actions, a, action, at);
    case ContactSaved(_) => SettingsRemember(cfg, users, actions, a, action, at);
    case EnrolAsked(_, _, _) => SettingsRemember(cfg, users, actions, a, action, at);
    case DisableAsked(_, _) => DisablingRemembers(cfg, users, actions, a, action, at);
    case DisableSaved(_) => DisablingRemembers(cfg, users, actions, a, action, at);
    case DisableRefreshed(_) => DisablingRemembers(cfg, users, actions, a, action, at);
    case PreferenceAsked(_, _, _) => SettingsRemember(cfg, users, actions, a, action, at);
    case PreferenceSaved(_) => SettingsRemember(cfg, users, actions, a, action, at);
    case Abandoned(_) => SettingsRemember(cfg, users, actions, a, action, at);
    case _ => ResetStepsRemember(cfg, users, actions, a, action, at);
  }

  // -- Every run -------------------------------------------------------------------

  lemma {:induction false} EveryRunRemembers(cfg: Config, users: map<UserId, User>, actions: seq<Moment>)
    ensures AllRemember(cfg, users, actions, Run(cfg, users, actions))
  {
    hide Perform, Remembers, SessionEntitled, Earned, Orderly;
    if actions != [] {
      var n := |actions| - 1;
      var before, m := Run(cfg, users, actions[..n]), actions[n];
      assert actions == actions[..n] + [m];
      EveryRunRemembers(cfg, users, actions[..n]);
      if m.at >= before.clock {
        var a := before.(clock := m.at);
        StepsTaken(cfg, users, actions[..n]);
        EveryRunIsOrderly(cfg, users, actions[..n]);
        MoveIsOrderly(cfg, before, a, 0);
        PerformRemembers(cfg, users, actions[..n], a, m.action, m.at);
        RemembersLonger(cfg, users, actions[..n], m, Perform(cfg, a, m.action, m.at));
      } else {
        RemembersLonger(cfg, users, actions[..n], m, before);
      }
    }
  }

  // -- Sessions --------------------------------------------------------------------

  /** The row a session's request had loaded when it decided. */
  function Loaded(cfg: Config, users: map<UserId, User>, actions: seq<Moment>, s: Session): Option<User> {
    if s.loadedAt > |actions| || s.user !in Run(cfg, users, actions[..s.loadedAt]).users then None
    else Some(Run(cfg, users, actions[..s.loadedAt]).users[s.user])
  }

  /** Sign-in: in every run, over all interleavings of logins, switches, settings and
      completions, every session was issued by a request that had loaded the account's row
      while it was active, at a moment no later than the session; the session lacks a code if
      and only if two-step verification was off in that row. A session with a code rests on a
      verified sign-in challenge of that same user, and no two on the same one. */
  lemma SessionsRestOnCodes(cfg: Config, users: map<UserId, User>, actions: seq<Moment>, i: nat, j: nat)
    requires i < |Run(cfg, users, actions).log.sessions| && j < |Run(cfg, users, actions).log.sessions|
    ensures
      var sys := Run(cfg, users, actions);
      var s, r := sys.log.sessions[i], sys.log.sessions[j];
      && s.loadedAt <= s.issuedAt && Loaded(cfg, users, actions, s).Some? && Loaded(cfg, users, actions, s).value.active
      && (s.proof.None? <==> !Loaded(cfg, users, actions, s).value.enabled)
      && (s.proof.Some? ==> Proves(cfg, sys.calls, s.proof.value, s.user, SignIn))
      && (i != j && s.proof.Some? && r.proof.Some? ==> DifferentChallenges(sys.calls, s.proof.value, r.proof.value))
  {
    hide Run, AnswerTo, Remembers, Earned, Proves, DifferentChallenges;
    var sys := Run(cfg, users, actions);
    EveryRunRemembers(cfg, users, actions);
    assert SessionEntitled(cfg, users, actions, sys.log.sessions[i]);
    if sys.log.sessions[i].proof.Some? {
      ProvenSessions(cfg, users, actions, i, if sys.log.sessions[j].proof.Some? then j else i);
    }
  }

  /** An account whose two-step verification is on at every moment from the loading of its row
      to the issuing of the session gets no session without a code. */
  lemma NoSessionWithoutCode(cfg: Config, users: map<UserId, User>, actions: seq<Moment>, i: nat)
    requires i < |Run(cfg, users, actions).log.sessions|
    requires var s := Run(cfg, users, actions).log.sessions[i];
      forall n :: s.loadedAt <= n <= s.issuedAt && n <= |actions| && s.user in Run(cfg, users, actions[..n]).users
        ==> Run(cfg, users, actions[..n]).users[s.user].enabled
    ensures var s := Run(cfg, users, actions).log.sessions[i];
      s.proof.Some? && Proves(cfg, Run(cfg, users, actions).calls, s.proof.value, s.user, SignIn)
  {
    hide Run, AnswerTo, Proves, DifferentChallenges;
    SessionsRestOnCodes(cfg, users, actions, i, i);
  }

  // -- Passwords -------------------------------------------------------------------

  /** How an account came by the password it has now. */
  datatype Source = Created | ByCode(reset: PasswordChange) | ByOwner(change: OwnChange)

  /** The password was set as `source` says: at the creation, by a reset that rests on a
      verified recovery challenge of the account and was spent in time, or by its owner. */
  ghost predicate SetBy(cfg: Config, users: map<UserId, User>, actions: seq<Moment>, user: UserId, password: Option<string>, source: Source) {
    var sys, origin := Run(cfg, users, actions), Origin(cfg, users, actions);
    match source
    case Created => user in origin && password == origin[user].password
    case ByCode(reset) =>
      reset.user == user && password == Some(reset.password)
      && Recovers(cfg, sys.calls, reset.proof, user, reset.mintedAt) && Timely(cfg, reset.mintedAt, reset.spentAt)
    case ByOwner(change) =>
      change.user == user && password == Some(change.password) && Earned(cfg, users, actions, change)
  }

  /** Passwords: in every run an account's password is the one it was created with; or was set
      by a completed reset that rests on a verified recovery challenge of the account, spent
      in time; or was set by a request that gave the password the row held when it was loaded,
      or found that it held none. */
  lemma PasswordIsEarned(cfg: Config, users: map<UserId, User>, actions: seq<Moment>, user: UserId) returns (source: Source)
    requires user in Run(cfg, users, actions).users
    ensures SetBy(cfg, users, actions, user, Run(cfg, users, actions).users[user].password, source)
  {
    hide Run, Origin, AnswerTo, WroteContact, Earned, Remembers, SessionEntitled, Timely, Recovers, DifferentChallenges;
    EveryRunIsAccounted(cfg, users, actions);
    EveryRunRemembers(cfg, users, actions);
    var sys, origin := Run(cfg, users, actions), Origin(cfg, users, actions);
    var password := sys.users[user].password;
    assert Accounted(sys, user, sys.users[user], origin[user]);
    if password == origin[user].password {
      source := Created;
    } else if ResetTo(sys, user, password) {
      var i :| 0 <= i < |sys.log.passwords| && sys.log.passwords[i].user == user && sys.log.passwords[i].password == password.value;
      PasswordsRestOnCodes(cfg, users, actions, i, i);
      source := ByCode(sys.log.passwords[i]);
    } else {
      var i :| 0 <= i < |sys.log.changes| && sys.log.changes[i].user == user && sys.log.changes[i].password == password.value;
      source := ByOwner(sys.log.changes[i]);
    }
  }
}
