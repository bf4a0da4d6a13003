/** What the database says of an account is accounted for: a contact or password that differs
    from the one the account was created with was written by a confirmed contact challenge or
    a completed reset of that account. */
module AccountsRows {
  import opened Wrappers
  import opened Otp
  import opened Accounts
  import opened AccountsProofs
  import opened AccountsSettings

  /** Every row as it was created: at the start, or registered during the run. */
  function Origin(cfg: Config, users: map<UserId, User>, actions: seq<Moment>): map<UserId, User> {
    if actions == [] then users
    else
      var n := |actions| - 1;
      var before, action := Run(cfg, users, actions[..n]), actions[n].action;
      var origin := Origin(cfg, users, actions[..n]);
      if action.Registered? && action.user !in before.users then origin[action.user := action.row] else origin
  }

  ghost predicate WroteContact(sys: System, user: UserId, channel: Channel, value: Option<Address>) {
    value.Some? && exists i :: (
      0 <= i < |sys.log.contacts|
      && sys.log.contacts[i].user == user && sys.log.contacts[i].channel == channel && sys.log.contacts[i].destination == value.value)
  }

  /** A completed reset set this password. */
  ghost predicate ResetTo(sys: System, user: UserId, password: Option<string>) {
    password.Some? && exists i :: (
      0 <= i < |sys.log.passwords| && sys.log.passwords[i].user == user && sys.log.passwords[i].password == password.value)
  }

  /** The owner set this password. */
  ghost predicate ChangedTo(sys: System, user: UserId, password: Option<string>) {
    password.Some? && exists i :: (
      0 <= i < |sys.log.changes| && sys.log.changes[i].user == user && sys.log.changes[i].password == password.value)
  }

  ghost predicate Accounted(sys: System, user: UserId, row: User, origin: User) {
    && (row.email == origin.email || WroteContact(sys, user, Email, row.email))
    && (row.mobile == origin.mobile || WroteContact(sys, user, Sms, row.mobile))
    && (row.password == origin.password || ResetTo(sys, user, row.password) || ChangedTo(sys, user, row.password))
  }

  ghost predicate AllAccounted(sys: System, origin: map<UserId, User>) {
    forall u :: u in sys.users ==> u in origin && Accounted(sys, u, sys.users[u], origin[u])
  }

  /** Contacts, passwords and their logs stay as they are. */
  ghost predicate KeepsRows(a: System, b: System) {
    && b.log.contacts == a.log.contacts && b.log.passwords == a.log.passwords && b.log.changes == a.log.changes
    && forall u :: u in b.users ==>
         u in a.users && b.users[u].email == a.users[u].email && b.users[u].mobile == a.users[u].mobile
         && b.users[u].password == a.users[u].password
  }

  lemma KeptIsAccounted(a: System, b: System, origin: map<UserId, User>)
    requires AllAccounted(a, origin) && KeepsRows(a, b)
    ensures AllAccounted(b, origin)
  {
    forall u | u in b.users ensures u in origin && Accounted(b, u, b.users[u], origin[u]) {
      assert Accounted(a, u, a.users[u], origin[u]);
    }
  }

  // -- Steps -----------------------------------------------------------------------

  lemma StartsKeepRows(cfg: Config, a: System, action: Action, at: real)
    requires action.FirstFactorPassed? || action.SwitchLoaded? || action.SendReturned? || action.RecoveryFound?
    ensures KeepsRows(a, Perform(cfg, a, action, at))
  {
    hide Answered, NewId, DestinationFor, Serves, DefaultChannel, StartLogin, StartTotp, Install;
    hide LoadFirstFactor, AskSwitch, SaveSession, AskContact, EnterCode, LoadOwner, UseProof, SaveContact, AskEnrol, SaveEnrol;
    hide AskDisable, SaveDisable, RefreshDisable, ChangeRow, AskRecovery, AskReset, LoadReset, SavePassword, RefreshPassword;
    var t := action.task;
    if action.FirstFactorPassed? && Waits(a, t) && a.tasks[t].Identified? {
      var Identified(user, row, _) := a.tasks[t];
      LoginStarts(cfg, a, t, user, row, DefaultChannel(row), None, action.send, at);
    } else if action.SwitchLoaded? && Waits(a, t) && a.tasks[t].Switching? && a.tasks[t].user in a.users {
      var Switching(challenge, user) := a.tasks[t];
      LoginStarts(cfg, a, t, user, a.users[user], Some(action.channel), Some(challenge), action.send, at);
    } else if action.SendReturned? && Waits(a, t) && a.tasks[t].Sending? {
      InstallStarts(cfg, a, t, a.tasks[t].id, a.tasks[t].purpose, a.tasks[t].supersedes, at);
    } else if action.RecoveryFound? {
      TotpStarts(cfg, a, t, ClaimTotp(action.send.id, action.user, PasswordReset, None, true), None, at);
    }
  }

  lemma SaveEnrolKeepsRows(cfg: Config, a: System, t: TaskId, id: ChallengeId, ttl: nat, at: real)
    ensures KeepsRows(a, SaveEnrol(cfg, a, t, id, ttl, at))
  {
    hide NewId, StartTotp;
    if Waits(a, t) && a.tasks[t].Enrolling? && a.tasks[t].user in a.users {
      var Enrolling(user, secret) := a.tasks[t];
      var stored := a.(users := a.users[user := a.users[user].(secret := Some(secret))]);
      TotpStarts(cfg, stored, t, ClaimTotp(id, user, VerifyContact, Some(ttl), false), None, at);
    }
  }

  lemma AsksKeepRows(cfg: Config, a: System, action: Action, at: real)
    requires action.CodeEntered? || action.OwnerLoaded? || action.SwitchAsked? || action.RecoveryAsked? || action.ContactAsked?
    ensures KeepsRows(a, Perform(cfg, a, action, at))
  {
    hide Answered, NewId;
    hide LoadFirstFactor, PassFirstFactor, PassSwitch, SaveSession, ReturnSend, UseProof, SaveContact, AskEnrol, SaveEnrol;
    hide AskDisable, SaveDisable, RefreshDisable, ChangeRow, FindRecovery, AskReset, LoadReset, SavePassword, RefreshPassword;
  }

  lemma OthersKeepRows(cfg: Config, a: System, action: Action, at: real)
    requires !action.ContactSaved? && !action.PasswordSaved? && !action.ChangeSaved? && !action.Registered?
    ensures KeepsRows(a, Perform(cfg, a, action, at))
  {
    hide PassFirstFactor, PassSwitch, ReturnSend, FindRecovery, SaveEnrol, EnterCode, LoadOwner, AskSwitch, AskRecovery, AskContact;
    hide SaveContact, SavePassword, SaveChange, Taken, DestinationFor, ConfirmedRow, WithoutExpired, WithoutUser;
    if action.FirstFactorPassed? || action.SwitchLoaded? || action.SendReturned? || action.RecoveryFound? {
      StartsKeepRows(cfg, a, action, at);
    } else if action.EnrolSaved? {
      SaveEnrolKeepsRows(cfg, a, action.task, action.id, action.ttl, at);
    } else if action.CodeEntered? || action.OwnerLoaded? || action.SwitchAsked? || action.RecoveryAsked? || action.ContactAsked? {
      AsksKeepRows(cfg, a, action, at);
    }
  }

  ghost predicate LogGrows(a: System, b: System) {
    a.log.contacts <= b.log.contacts && a.log.passwords <= b.log.passwords && a.log.changes <= b.log.changes
  }

  /** Logs only grow, so what was accounted for stays so. */
  lemma AccountedStays(a: System, b: System, user: UserId, row: User, origin: User)
    requires Accounted(a, user, row, origin) && LogGrows(a, b)
    ensures Accounted(b, user, row, origin)
  {
    forall channel, value | WroteContact(a, user, channel, value) ensures WroteContact(b, user, channel, value) {
      var i :| 0 <= i < |a.log.contacts| && a.log.contacts[i].user == user && a.log.contacts[i].channel == channel
        && a.log.contacts[i].destination == value.value;
      assert b.log.contacts[i] == a.log.contacts[i];
    }
    PasswordStays(a, b, user, row.password);
    hide WroteContact, ResetTo, ChangedTo, LogGrows;
  }

  lemma PasswordStays(a: System, b: System, user: UserId, password: Option<string>)
    requires LogGrows(a, b)
    ensures ResetTo(a, user, password) ==> ResetTo(b, user, password)
    ensures ChangedTo(a, user, password) ==> ChangedTo(b, user, password)
  {
    if ResetTo(a, user, password) {
      var i :| 0 <= i < |a.log.passwords| && a.log.passwords[i].user == user && a.log.passwords[i].password == password.value;
      assert b.log.passwords[i] == a.log.passwords[i];
    }
    if ChangedTo(a, user, password) {
      var i :| 0 <= i < |a.log.changes| && a.log.changes[i].user == user && a.log.changes[i].password == password.value;
      assert b.log.changes[i] == a.log.changes[i];
    }
  }

  lemma SaveContactAccounted(a: System, t: TaskId, origin: map<UserId, User>)
    requires AllAccounted(a, origin)
    ensures AllAccounted(SaveContact(a, t), origin)
  {
    hide Taken;
    var b := SaveContact(a, t);
    forall u | u in b.users ensures u in origin && Accounted(b, u, b.users[u], origin[u]) {
      assert Accounted(a, u, a.users[u], origin[u]);
      AccountedStays(a, b, u, a.users[u], origin[u]);
      if b.users[u] != a.users[u] {
        ContactAccounted(a, t, u, origin[u]);
      }
    }
  }

  lemma ContactAccounted(a: System, t: TaskId, user: UserId, origin: User)
    requires Waits(a, t) && a.tasks[t].Confirming? && a.tasks[t].user == user && user in a.users
    requires SaveContact(a, t).users != a.users && Accounted(SaveContact(a, t), user, a.users[user], origin)
    ensures Accounted(SaveContact(a, t), user, SaveContact(a, t).users[user], origin)
  {
    hide Taken;
    var Confirming(_, proof, channel, destination, loaded) := a.tasks[t];
    var b := SaveContact(a, t);
    if channel != Totp && destination.Some? {
      assert b.log.contacts[|a.log.contacts|] == ContactWrite(user, channel, destination.value, proof);
      assert WroteContact(b, user, channel, destination);
    }
  }

  lemma SavePasswordAccounted(a: System, t: TaskId, password: string, origin: map<UserId, User>)
    requires AllAccounted(a, origin)
    ensures AllAccounted(SavePassword(a, t, password), origin)
  {
    var b := SavePassword(a, t, password);
    forall u | u in b.users ensures u in origin && Accounted(b, u, b.users[u], origin[u]) {
      assert Accounted(a, u, a.users[u], origin[u]);
      AccountedStays(a, b, u, a.users[u], origin[u]);
      if b.users[u] != a.users[u] {
        assert b.log.passwords[|a.log.passwords|].user == u;
        assert ResetTo(b, u, b.users[u].password);
      }
    }
  }

  lemma SaveChangeAccounted(a: System, t: TaskId, origin: map<UserId, User>)
    requires AllAccounted(a, origin)
    ensures AllAccounted(SaveChange(a, t), origin)
  {
    var b := SaveChange(a, t);
    forall u | u in b.users ensures u in origin && Accounted(b, u, b.users[u], origin[u]) {
      assert Accounted(a, u, a.users[u], origin[u]);
      AccountedStays(a, b, u, a.users[u], origin[u]);
      if b.users[u] != a.users[u] {
        assert b.log.changes[|a.log.changes|].user == u;
        assert ChangedTo(b, u, b.users[u].password);
      }
    }
  }

  lemma RegisteredAccounted(a: System, action: Action, origin: map<UserId, User>)
    requires action.Registered? && AllAccounted(a, origin)
    ensures AllAccounted(ChangeRow(a, action), if action.user !in a.users then origin[action.user := action.row] else origin)
  {
    hide Taken;
    var b := ChangeRow(a, action);
    var born := if action.user !in a.users then origin[action.user := action.row] else origin;
    forall u | u in b.users ensures u in born && Accounted(b, u, b.users[u], born[u]) {
      if u in a.users {
        assert Accounted(a, u, a.users[u], origin[u]);
        AccountedStays(a, b, u, a.users[u], origin[u]);
      }
    }
  }

  // -- Every run -------------------------------------------------------------------

  lemma {:induction false} EveryRunIsAccounted(cfg: Config, users: map<UserId, User>, actions: seq<Moment>)
    ensures AllAccounted(Run(cfg, users, actions), Origin(cfg, users, actions))
  {
    hide Next, Accounted;
    if actions == [] {
      StartIsAccounted(users);
    } else {
      var n := |actions| - 1;
      EveryRunIsAccounted(cfg, users, actions[..n]);
      NextIsAccounted(cfg, Run(cfg, users, actions[..n]), actions[n].action, actions[n].at, Origin(cfg, users, actions[..n]));
    }
  }

  lemma StartIsAccounted(users: map<UserId, User>)
    ensures AllAccounted(Start(users), users)
  {
  }

  /** The rows as created, after one more step. */
  function Born(sys: System, origin: map<UserId, User>, action: Action): map<UserId, User> {
    if action.Registered? && action.user !in sys.users then origin[action.user := action.row] else origin
  }

  lemma NextIsAccounted(cfg: Config, sys: System, action: Action, at: real, origin: map<UserId, User>)
    requires AllAccounted(sys, origin)
    ensures AllAccounted(Next(cfg, sys, action, at), Born(sys, origin, action))
  {
    hide Perform, AllAccounted;
    if at < sys.clock {
      SameAccounted(sys, Next(cfg, sys, action, at), origin);
      MoreBorn(Next(cfg, sys, action, at), origin, sys, action);
    } else {
      var a := sys.(clock := at);
      SameAccounted(sys, a, origin);
      PerformIsAccounted(cfg, a, action, at, origin);
      SameAccounted(Perform(cfg, a, action, at), Next(cfg, sys, action, at), Born(sys, origin, action));
    }
  }

  lemma MoreBorn(b: System, origin: map<UserId, User>, sys: System, action: Action)
    requires AllAccounted(b, origin) && b.users == sys.users
    ensures AllAccounted(b, Born(sys, origin, action))
  {
    hide Accounted;
  }

  lemma PerformIsAccounted(cfg: Config, a: System, action: Action, at: real, origin: map<UserId, User>)
    requires AllAccounted(a, origin)
    ensures AllAccounted(Perform(cfg, a, action, at), Born(a, origin, action))
  {
    hide AllAccounted, KeepsRows, SaveContact, SavePassword, SaveChange, ChangeRow;
    hide LoadFirstFactor, PassFirstFactor, AskSwitch, PassSwitch, SaveSession, AskContact, ReturnSend, EnterCode, LoadOwner, UseProof;
    hide AskEnrol, SaveEnrol, AskDisable, SaveDisable, RefreshDisable, AskRecovery, FindRecovery, AskReset, LoadReset, RefreshPassword;
    hide AskChange, AskPreference, SavePreference;
    match action
    case ContactSaved(t) => SaveContactAccounted(a, t, origin);
    case PasswordSaved(t, password) => SavePasswordAccounted(a, t, password, origin);
    case ChangeSaved(t) => SaveChangeAccounted(a, t, origin);
    case Registered(_, _) => RegisteredAccounted(a, action, origin);
    case _ => OthersAccounted(cfg, a, action, at, origin);
  }

  lemma OthersAccounted(cfg: Config, a: System, action: Action, at: real, origin: map<UserId, User>)
    requires AllAccounted(a, origin)
    requires !action.ContactSaved? && !action.PasswordSaved? && !action.ChangeSaved? && !action.Registered?
    ensures AllAccounted(Perform(cfg, a, action, at), Born(a, origin, action))
  {
    hide AllAccounted, KeepsRows, Perform;
    OthersKeepRows(cfg, a, action, at);
    KeptIsAccounted(a, Perform(cfg, a, action, at), origin);
  }

  lemma SameAccounted(a: System, b: System, origin: map<UserId, User>)
    requires AllAccounted(a, origin) && b.users == a.users && b.log == a.log
    ensures AllAccounted(b, origin)
  {
    KeptIsAccounted(a, b, origin);
  }

  /** In every run: an account's e-mail address or mobile number is the one it was created
      with, or the destination of a verified contact challenge of that account. */
  lemma RowsRestOnCodes(cfg: Config, users: map<UserId, User>, actions: seq<Moment>, user: UserId, channel: Channel)
    returns (proof: nat)
    requires var sys, origin := Run(cfg, users, actions), Origin(cfg, users, actions);
      user in sys.users && (user in origin ==> DestinationFor(sys.users[user], channel) != DestinationFor(origin[user], channel))
    ensures var sys := Run(cfg, users, actions);
      ProvesContact(cfg, sys.calls, proof, user, channel, DestinationFor(sys.users[user], channel))
  {
    hide Run, Origin, AnswerTo, ResetTo, ChangedTo;
    EveryRunIsAccounted(cfg, users, actions);
    var sys, origin := Run(cfg, users, actions), Origin(cfg, users, actions);
    var value := DestinationFor(sys.users[user], channel);
    assert Accounted(sys, user, sys.users[user], origin[user]);
    assert WroteContact(sys, user, channel, value);
    var i :| 0 <= i < |sys.log.contacts| && sys.log.contacts[i].user == user && sys.log.contacts[i].channel == channel
      && sys.log.contacts[i].destination == value.value;
    ContactsRestOnCodes(cfg, users, actions, i, i);
    proof := sys.log.contacts[i].proof;
  }
}
