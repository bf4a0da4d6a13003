/** Whom the flows serve: exactly when a request goes on, and that no two accounts ever share a
    contact (auth_service.py, two_factor_service.py, password_reset_service.py). */
module AccountsRefusals {
  import opened Wrappers
  import opened Otp
  import opened OtpLifecycle
  import opened Accounts
  import opened AccountsProofs
  import opened AccountsRows
  import opened AccountsSignIn
  import OtpAnswers

  // -- When a code is asked for ----------------------------------------------------

  /** The method can reach the account, and its provider can send. */
  predicate Reaches(row: User, channel: Channel, send: SendInput) {
    match channel
    case Sms => row.mobile.Some? && send.configured
    case Email => row.email.Some? && send.configured
    case Totp => row.secret.Some?
  }

  /** The claim of a code for this account: it goes to the row's own address for the method, and
      is measured by the client's. */
  function ClaimFor(row: User, user: UserId, purpose: Purpose, channel: Channel, send: SendInput, client: Option<Address>): Operation {
    match channel
    case Sms => Claim(send.id, send.code, user, purpose, Sms, row.mobile, client)
    case Email => Claim(send.id, send.code, user, purpose, Email, row.email, client)
    case Totp => ClaimTotp(send.id, user, purpose, None, true)
  }

  /** The code store is asked this next. */
  predicate Asks(before: seq<Call>, after: seq<Call>, op: Operation) { before < after && after[|before|].op == op }

  lemma StartAsks(cfg: Config, sys: System, t: TaskId, op: Operation, supersedes: Option<ChallengeId>, at: real)
    requires Mints(op)
    ensures op.ClaimTotp? ==> Asks(sys.calls, StartTotp(cfg, sys, t, op, supersedes, at).calls, op)
    ensures op.Claim? ==> Asks(sys.calls, StartSend(cfg, sys, t, op, supersedes, at).calls, op)
  {
    hide Answered;
  }

  lemma LoginAsks(cfg: Config, sys: System, t: TaskId, user: UserId, row: User, chosen: Option<Channel>, supersedes: Option<ChallengeId>,
                  send: SendInput, at: real)
    ensures var b := StartLogin(cfg, sys, t, user, row, chosen, supersedes, send, at);
      if chosen.Some? && Reaches(row, chosen.value, send)
      then Asks(sys.calls, b.calls, ClaimFor(row, user, SignIn, chosen.value, send, send.address))
      else b == End(sys, t)
  {
    hide StartTotp, StartSend, Asks;
    if chosen.Some? {
      StartAsks(cfg, sys, t, ClaimFor(row, user, SignIn, chosen.value, send, send.address), supersedes, at);
    }
  }

  /** After the first factor a code is claimed, by the account's default method and for the row's
      own address, if and only if the row is active, has two-step verification on and that method reaches it; an active
      account that has it off goes on without a code, and any other request ends there. */
  lemma FirstFactorLeads(cfg: Config, sys: System, t: TaskId, send: SendInput)
    requires Waits(sys, t) && sys.tasks[t].Identified? && NewId(sys, send.id)
    ensures
      var Identified(user, row, loadedAt) := sys.tasks[t];
      var b := PassFirstFactor(cfg, sys, t, send, sys.clock);
      var channel := match row.preference { case Unset => Some(Sms) case Known(c) => Some(c) case Unrecognised => None };
      if row.active && row.enabled && channel.Some? && Reaches(row, channel.value, send)
      then Asks(sys.calls, b.calls, ClaimFor(row, user, SignIn, channel.value, send, send.address))
      else if row.active && !row.enabled then b == Begin(sys, t, Issuing(user, loadedAt, None))
      else b == End(sys, t)
  {
    hide StartLogin, WasMinted, Asks, Reaches, ClaimFor;
    var Identified(user, row, _) := sys.tasks[t];
    LoginAsks(cfg, sys, t, user, row, DefaultChannel(row), None, send, sys.clock);
  }

  /** A switch claims a code if and only if the account is active, has two-step verification on
      and the other method reaches it. */
  lemma SwitchLeads(cfg: Config, sys: System, t: TaskId, channel: Channel, send: SendInput)
    requires Waits(sys, t) && sys.tasks[t].Switching? && NewId(sys, send.id)
    ensures
      var user, b := sys.tasks[t].user, PassSwitch(cfg, sys, t, channel, send, sys.clock);
      if user in sys.users && sys.users[user].active && sys.users[user].enabled && Reaches(sys.users[user], channel, send)
      then Asks(sys.calls, b.calls, ClaimFor(sys.users[user], user, SignIn, channel, send, send.address))
      else b == End(sys, t)
  {
    hide StartLogin, WasMinted, Asks, Reaches, ClaimFor;
    var Switching(challenge, user) := sys.tasks[t];
    if user in sys.users {
      LoginAsks(cfg, sys, t, user, sys.users[user], Some(channel), Some(challenge), send, sys.clock);
    }
  }

  /** A recovery claims a code for the account's own address if and only if the account is active
      and the method reaches it; it is not measured by the client's address. */
  lemma RecoveryLeads(cfg: Config, sys: System, t: TaskId, user: UserId, channel: Channel, send: SendInput)
    requires Waits(sys, t) && sys.tasks[t].Recovering? && NewId(sys, send.id)
    ensures
      var b := FindRecovery(cfg, sys, t, user, channel, send, sys.clock);
      if user in sys.users && sys.users[user].active && Reaches(sys.users[user], channel, send)
      then Asks(sys.calls, b.calls, ClaimFor(sys.users[user], user, PasswordReset, channel, send, None))
      else b == End(sys, t)
  {
    hide StartTotp, StartSend, WasMinted, Asks;
    if user in sys.users {
      StartAsks(cfg, sys, t, ClaimFor(sys.users[user], user, PasswordReset, channel, send, None), None, sys.clock);
    }
  }

  /** A contact's code goes to the contact itself, and a request for recovery is counted at its
      client's address before an account is looked for; it goes on if and only if the limit
      accepts it. */
  lemma RequestsLead(cfg: Config, sys: System, t: TaskId, user: UserId, channel: Channel, destination: Address, send: SendInput)
    requires Idle(sys, t) && NewId(sys, send.id)
    ensures
      var b := AskContact(cfg, sys, t, user, channel, destination, send, sys.clock);
      if channel != Totp && send.configured
      then Asks(sys.calls, b.calls, Claim(send.id, send.code, user, VerifyContact, channel, Some(destination), send.address))
      else b == sys
    ensures
      var b := AskRecovery(cfg, sys, t, send.address, sys.clock);
      && b.calls == sys.calls + [Call(ReserveRequest(send.address), sys.clock)]
      && (Waits(b, t) <==> Step(cfg, After(cfg, sys.calls), ReserveRequest(send.address), sys.clock).answer == Accepted)
  {
    hide StartSend, WasMinted, Asks, Step, After;
    StartAsks(cfg, sys, t, Claim(send.id, send.code, user, VerifyContact, channel, Some(destination), send.address), None, sys.clock);
  }

  /** An authenticator code is judged if and only if the owner has a secret to judge it by, and a
      reset goes on to its password if and only if the account is active. */
  lemma OwnerLeads(cfg: Config, sys: System, t: TaskId, verdict: Verdict)
    requires Waits(sys, t)
    ensures sys.tasks[t].LoadingOwner? ==>
      var owner, b := sys.tasks[t].owner, LoadOwner(cfg, sys, t, verdict, sys.clock);
      if owner in sys.users && sys.users[owner].secret.Some? then |b.calls| == |sys.calls| + 1 && b.calls[|sys.calls|].op.Verify? else b == End(sys, t)
    ensures sys.tasks[t].Resetting? ==>
      var user, b := sys.tasks[t].user, LoadReset(sys, t);
      if user in sys.users && sys.users[user].active then Waits(b, t) && b.tasks[t].SettingPassword? && b.tasks[t].user == user else b == End(sys, t)
  {
    hide Answered;
  }

  /** A contact's code confirms nothing for a stranger, texted or an authenticator's, whatever it
      is and whatever a validator says: the request ends without a proof. */
  lemma StrangersConfirmNothing(cfg: Config, sys: System, t: TaskId, challenge: ChallengeId, code: string, user: UserId, verdict: Verdict,
                                at: real, later: real)
    requires Idle(sys, t) && 0.0 <= at && 0.0 <= later
    requires var live := After(cfg, sys.calls).codes.live; challenge in live ==> live[challenge].user != user
    ensures
      var b := EnterCode(cfg, sys, t, VerifyContact, challenge, code, user, at);
      Waits(b, t) ==> b.tasks[t].LoadingOwner? && !Waits(LoadOwner(cfg, b, t, verdict, later), t)
  {
    hide Step, After;
    var look := Call(RequireLive(challenge, VerifyContact), at);
    AfterOne(cfg, sys.calls, look);
    LookTakesAway(cfg, After(cfg, sys.calls), look);
    var looked := After(cfg, sys.calls + [look]);
    StrangerIsRefused(cfg, looked, Verify(challenge, code, VerifyContact, Some(user), None), at);
    StrangerIsRefused(cfg, looked, Verify(challenge, code, VerifyContact, Some(user), Some(verdict)), later);
  }

  lemma LookTakesAway(cfg: Config, s: State, look: Call)
    requires look.op.RequireLive?
    ensures var live := Step(cfg, s, look.op, look.at).state.codes.live; forall id :: id in live ==> id in s.codes.live && live[id] == s.codes.live[id]
  {
    hide PruneLimits, PruneGuard;
  }

  lemma StrangerIsRefused(cfg: Config, s: State, op: Operation, now: real)
    requires op.Verify? && op.expectedUser.Some? && now >= 0.0
    requires op.id in s.codes.live ==> s.codes.live[op.id].user != op.expectedUser.value
    ensures Step(cfg, s, op, now).answer == Gone
  {
    hide Step;
    OtpAnswers.CodeIsAnswered(cfg, s, op, now);
  }

  // -- Whose contact it is ---------------------------------------------------------

  /** No two accounts share an e-mail address or a mobile number. */
  ghost predicate Distinct(users: map<UserId, User>) {
    forall u, v :: u in users && v in users && u != v ==>
      && (users[u].email.Some? ==> users[u].email != users[v].email)
      && (users[u].mobile.Some? ==> users[u].mobile != users[v].mobile)
  }

  lemma FreeIsDistinct(users: map<UserId, User>, user: UserId, row: User)
    requires Distinct(users) && !Taken(users, user, row)
    ensures Distinct(users[user := row])
  {
    forall v | v in users && v != user
      ensures (row.email.Some? ==> users[v].email != row.email) && (row.mobile.Some? ==> users[v].mobile != row.mobile) {
    }
  }

  lemma SameContacts(a: map<UserId, User>, b: map<UserId, User>)
    requires Distinct(a) && forall u :: u in b ==> u in a && b[u].email == a[u].email && b[u].mobile == a[u].mobile
    ensures Distinct(b)
  {
  }

  lemma PerformIsDistinct(cfg: Config, a: System, action: Action, at: real)
    requires Distinct(a.users)
    ensures Distinct(Perform(cfg, a, action, at).users)
  {
    hide Distinct, Perform, SaveContact, ChangeRow, SavePassword, SaveChange;
    if action.ContactSaved? || action.Registered? {
      WritesAreDistinct(cfg, a, action, at);
    } else if action.PasswordSaved? || action.ChangeSaved? {
      PasswordsKeepContacts(cfg, a, action, at);
      SameContacts(a.users, Perform(cfg, a, action, at).users);
    } else {
      OthersKeepRows(cfg, a, action, at);
      SameContacts(a.users, Perform(cfg, a, action, at).users);
    }
  }

  lemma PasswordsKeepContacts(cfg: Config, a: System, action: Action, at: real)
    requires action.PasswordSaved? || action.ChangeSaved?
    ensures forall u :: u in Perform(cfg, a, action, at).users ==>
      u in a.users && Perform(cfg, a, action, at).users[u].email == a.users[u].email && Perform(cfg, a, action, at).users[u].mobile == a.users[u].mobile
  {
    hide AskSwitch, PassSwitch, SaveContact, SaveEnrol, FindRecovery, AskContact, PassFirstFactor, ReturnSend, LoadFirstFactor;
    hide AskRecovery, AskEnrol, AskDisable, SaveDisable, RefreshDisable, AskReset, LoadReset, RefreshPassword, SaveSession;
    hide ChangeRow, AskChange, AskPreference, SavePreference, EnterCode, LoadOwner, UseProof;
  }

  lemma WritesAreDistinct(cfg: Config, a: System, action: Action, at: real)
    requires Distinct(a.users) && (action.ContactSaved? || action.Registered?)
    ensures Distinct(Perform(cfg, a, action, at).users)
  {
    hide AskSwitch, PassSwitch, SaveEnrol, FindRecovery, AskContact, PassFirstFactor, ReturnSend, LoadFirstFactor, SaveSession;
    hide AskRecovery, AskEnrol, AskDisable, SaveDisable, RefreshDisable, AskReset, LoadReset, SavePassword, RefreshPassword;
    hide AskChange, SaveChange, AskPreference, SavePreference, EnterCode, LoadOwner, UseProof, Distinct, Taken, ConfirmedRow;
    if action.Registered? {
      if !Taken(a.users, action.user, action.row) {
        FreeIsDistinct(a.users, action.user, action.row);
      }
    } else if Waits(a, action.task) && a.tasks[action.task].Confirming? && a.tasks[action.task].user in a.users {
      var Confirming(user, _, channel, destination, loaded) := a.tasks[action.task];
      var row := ConfirmedRow(a.users[user], loaded, channel, destination);
      if !Taken(a.users, user, row) {
        FreeIsDistinct(a.users, user, row);
      }
    }
  }

  /** In every run that starts with distinct contacts, no two accounts ever share one, however
      confirmations and registrations interleave. */
  lemma {:induction false} ContactsStayDistinct(cfg: Config, users: map<UserId, User>, actions: seq<Moment>)
    requires Distinct(users)
    ensures Distinct(Run(cfg, users, actions).users)
  {
    hide Perform, Distinct;
    if actions != [] {
      var n := |actions| - 1;
      var before := Run(cfg, users, actions[..n]);
      ContactsStayDistinct(cfg, users, actions[..n]);
      PerformIsDistinct(cfg, before.(clock := actions[n].at), actions[n].action, actions[n].at);
    }
  }

  /** And a contact that nobody else has can be registered: the account joins as it is given,
      with two-step verification off, and every other stays. */
  lemma NewcomerJoins(cfg: Config, sys: System, user: UserId, row: User, at: real)
    requires at >= sys.clock
    ensures
      var b := Next(cfg, sys, Registered(user, row), at).users;
      if user !in sys.users && !row.enabled
         && (forall v :: v in sys.users ==>
               && (row.email.Some? ==> sys.users[v].email != row.email) && (row.mobile.Some? ==> sys.users[v].mobile != row.mobile))
      then b == sys.users[user := row] else b == sys.users
  {
  }

  /** A confirmation writes the columns in which what it wants differs from the row it had
      loaded, and no other. */
  lemma ConfirmedIsDifference(now: User, loaded: User, channel: Channel, destination: Option<Address>)
    requires channel != Totp ==> destination.Some?
    ensures
      var wanted := loaded.(
        email := if channel == Email then destination else loaded.email, mobile := if channel == Sms then destination else loaded.mobile,
        enabled := true, preference := if loaded.enabled then loaded.preference else Known(channel));
      var row := ConfirmedRow(now, loaded, channel, destination);
      && row.email == (if wanted.email != loaded.email then wanted.email else now.email)
      && row.mobile == (if wanted.mobile != loaded.mobile then wanted.mobile else now.mobile)
      && row.enabled == (if wanted.enabled != loaded.enabled then wanted.enabled else now.enabled)
      && row.preference == (if wanted.preference != loaded.preference then wanted.preference else now.preference)
      && row.active == now.active && row.secret == now.secret && row.password == now.password
  {
  }
}
