/** Whatever an account flow does on the strength of a code, it does on the strength of a
    code of its own: sessions, password changes and contacts rest on distinct verified
    challenges of the right user and purpose. */
module AccountsProofs {
  import opened Wrappers
  import opened Otp
  import opened OtpWindows
  import opened OtpLifecycle
  import opened Accounts

  // -- Calls -----------------------------------------------------------------------

  /** The calls so far, as the lemmas about runs want them. */
  ghost predicate SaneCalls(sys: System) {
    Otp.Timed(sys.calls) && Until(sys.calls, sys.clock) && FreshIds(sys.calls) && sys.clock >= 0.0
  }

  lemma AskedIsSane(sys: System, op: Operation)
    requires SaneCalls(sys) && (Mints(op) ==> NewId(sys, op.id))
    ensures SaneCalls(Asked(sys, op, sys.clock))
  {
    var calls := sys.calls + [Call(op, sys.clock)];
    forall i, j | 0 <= i < j < |calls| && Mints(calls[i].op) && Mints(calls[j].op) ensures calls[i].op.id != calls[j].op.id {
      if j == |sys.calls| {
        assert Mints(sys.calls[i].op);
        assert !WasMinted(sys.calls, op.id);
      }
    }
  }

  /** The call verified a code of this user and purpose. */
  predicate Proves(cfg: Config, calls: seq<Call>, i: nat, user: UserId, purpose: Purpose) {
    i < |calls| && AnswerTo(cfg, calls, i).Verified?
    && AnswerTo(cfg, calls, i).challenge.user == user && AnswerTo(cfg, calls, i).challenge.purpose == purpose
  }

  /** Call `i` verified a recovery code of this user, and an authorization was minted for it
      afterwards. */
  predicate Recovers(cfg: Config, calls: seq<Call>, i: nat, user: UserId, mintedAt: real) {
    Proves(cfg, calls, i, user, PasswordReset) && calls[i].at <= mintedAt
  }

  /** And the code had gone to this contact. */
  predicate ProvesContact(cfg: Config, calls: seq<Call>, i: nat, user: UserId, channel: Channel, destination: Option<Address>) {
    Proves(cfg, calls, i, user, VerifyContact)
    && AnswerTo(cfg, calls, i).challenge.channel == channel && AnswerTo(cfg, calls, i).challenge.destination == destination
  }

  lemma AnswerStays(cfg: Config, calls: seq<Call>, more: seq<Call>, i: nat)
    requires calls <= more && i < |calls|
    ensures AnswerTo(cfg, more, i) == AnswerTo(cfg, calls, i)
  {
    hide Step, After;
    assert more[..i] == calls[..i];
  }

  // -- Places ----------------------------------------------------------------------

  datatype Place = InTask(t: TaskId) | InAuthorization(k: Token) | InSession(i: nat) | InPassword(i: nat) | InContact(i: nat)

  datatype Item =
    | TaskItem(task: Task)
    | AuthorizationItem(authorization: Authorization)
    | SessionItem(session: Session)
    | PasswordItem(reset: PasswordChange)
    | ContactItem(write: ContactWrite)

  function At(sys: System, p: Place): Option<Item> {
    match p
    case InTask(t) => if t in sys.tasks then Some(TaskItem(sys.tasks[t])) else None
    case InAuthorization(k) => if k in sys.authorizations then Some(AuthorizationItem(sys.authorizations[k])) else None
    case InSession(i) => if i < |sys.log.sessions| then Some(SessionItem(sys.log.sessions[i])) else None
    case InPassword(i) => if i < |sys.log.passwords| then Some(PasswordItem(sys.log.passwords[i])) else None
    case InContact(i) => if i < |sys.log.contacts| then Some(ContactItem(sys.log.contacts[i])) else None
  }

  /** The verified code an item rests on. */
  function ProofOf(item: Item): Option<nat> {
    match item
    case TaskItem(task) => (
      match task
      case Proven(proof, _, _, _) => Some(proof)
      case Issuing(_, _, proof) => proof
      case Confirming(_, proof, _, _, _) => Some(proof)
      case Resetting(_, proof, _, _) => Some(proof)
      case SettingPassword(_, proof, _, _) => Some(proof)
      case _ => None)
    case AuthorizationItem(authorization) => Some(authorization.proof)
    case SessionItem(session) => session.proof
    case PasswordItem(reset) => Some(reset.proof)
    case ContactItem(write) => Some(write.proof)
  }

  predicate Timely(cfg: Config, mintedAt: real, spentAt: real) {
    mintedAt <= spentAt < mintedAt + cfg.authorizationTtl as real
  }

  /** The item's proof is a verified code of the right user and purpose. */
  predicate Grounded(cfg: Config, calls: seq<Call>, item: Item) {
    match item
    case TaskItem(task) => (
      match task
      case Proven(proof, c, _, _) => proof < |calls| && AnswerTo(cfg, calls, proof) == Verified(c)
      case Issuing(user, _, proof) => proof.Some? ==> Proves(cfg, calls, proof.value, user, SignIn)
      case Confirming(user, proof, channel, destination, _) => ProvesContact(cfg, calls, proof, user, channel, destination)
      case Resetting(user, proof, mintedAt, spentAt) => Recovers(cfg, calls, proof, user, mintedAt) && Timely(cfg, mintedAt, spentAt)
      case SettingPassword(user, proof, mintedAt, spentAt) => Recovers(cfg, calls, proof, user, mintedAt) && Timely(cfg, mintedAt, spentAt)
      case _ => true)
    case AuthorizationItem(a) => Recovers(cfg, calls, a.proof, a.user, a.mintedAt) && a.expiresAt == a.mintedAt + cfg.authorizationTtl as real
    case SessionItem(s) => s.proof.Some? ==> Proves(cfg, calls, s.proof.value, s.user, SignIn)
    case PasswordItem(p) => Recovers(cfg, calls, p.proof, p.user, p.mintedAt) && Timely(cfg, p.mintedAt, p.spentAt)
    case ContactItem(w) => ProvesContact(cfg, calls, w.proof, w.user, w.channel, Some(w.destination))
  }

  lemma GroundedStays(cfg: Config, calls: seq<Call>, more: seq<Call>, item: Item)
    requires calls <= more && Grounded(cfg, calls, item)
    ensures Grounded(cfg, more, item)
  {
    hide AnswerTo;
    if ProofOf(item).Some? && ProofOf(item).value < |calls| {
      AnswerStays(cfg, calls, more, ProofOf(item).value);
    }
  }

  lemma ProofIsPast(cfg: Config, calls: seq<Call>, item: Item)
    requires Grounded(cfg, calls, item) && ProofOf(item).Some?
    ensures ProofOf(item).value < |calls|
  {
    hide AnswerTo;
  }

  function ProofAt(sys: System, p: Place): Option<nat> {
    match At(sys, p) case Some(item) => ProofOf(item) case None => None
  }

  ghost predicate AllGrounded(cfg: Config, sys: System) {
    forall p :: At(sys, p).Some? ==> Grounded(cfg, sys.calls, At(sys, p).value)
  }

  /** No verified code is relied on twice. */
  ghost predicate Linear(sys: System) {
    forall p, q :: ProofAt(sys, p).Some? && ProofAt(sys, p) == ProofAt(sys, q) ==> p == q
  }

  ghost predicate Sound(cfg: Config, sys: System) {
    AllGrounded(cfg, sys) && Linear(sys)
  }

  // -- One change at a time --------------------------------------------------------

  /** Items stay or disappear, except at one place. */
  ghost predicate ChangesOnly(a: System, b: System, to: Place) {
    a.calls <= b.calls && forall p :: p != to ==> At(b, p).None? || At(b, p) == At(a, p)
  }

  /** What appears at a place was there already, rests on nothing, on what was given up at
      another place, or on a call made just now. */
  ghost predicate Passed(a: System, b: System, from: Place, to: Place) {
    || At(b, to) == At(a, to)
    || ProofAt(b, to).None?
    || (ProofAt(b, to) == ProofAt(a, from) && (from == to || At(b, from).None?))
    || ProofAt(b, to).value >= |a.calls|
  }

  lemma Preserved(cfg: Config, a: System, b: System, from: Place, to: Place)
    requires Sound(cfg, a) && ChangesOnly(a, b, to) && Passed(a, b, from, to)
    requires At(b, to).Some? ==> At(b, to) == At(a, to) || Grounded(cfg, b.calls, At(b, to).value)
    ensures Sound(cfg, b)
  {
    hide Grounded, ProofOf, At;
    forall p | At(b, p).Some? ensures Grounded(cfg, b.calls, At(b, p).value) {
      if At(b, p) == At(a, p) {
        GroundedStays(cfg, a.calls, b.calls, At(b, p).value);
      }
    }
    forall p | ProofAt(b, p).Some? && (p != to || At(b, p) == At(a, p)) ensures ProofAt(a, p) == ProofAt(b, p) && ProofAt(b, p).value < |a.calls| {
      ProofIsPast(cfg, a.calls, At(a, p).value);
    }
  }

  // -- Steps that rest on no code --------------------------------------------------

  predicate IsUnproven(task: Task) {
    ProofOf(TaskItem(task)).None?
  }

  /** Only this request changed, and if it did it now rests on no code. */
  ghost predicate Unproven(a: System, b: System, t: TaskId) {
    && a.calls <= b.calls && b.tasks - {t} == a.tasks - {t}
    && (t in b.tasks ==> (t in a.tasks && b.tasks[t] == a.tasks[t]) || IsUnproven(b.tasks[t]))
    && b.authorizations == a.authorizations && b.log == a.log.(changes := b.log.changes)
  }

  lemma UnprovenIsSound(cfg: Config, a: System, b: System, t: TaskId)
    requires Sound(cfg, a) && Unproven(a, b, t)
    ensures Sound(cfg, b)
  {
    OtherTasks(a, b, t);
    Preserved(cfg, a, b, InTask(t), InTask(t));
  }

  lemma OtherTasks(a: System, b: System, t: TaskId)
    requires b.tasks - {t} == a.tasks - {t}
    ensures forall u :: u != t ==> At(b, InTask(u)) == At(a, InTask(u))
  {
    forall u | u != t ensures At(b, InTask(u)) == At(a, InTask(u)) {
      assert u in b.tasks <==> u in b.tasks - {t};
      assert u in a.tasks <==> u in a.tasks - {t};
      if u in a.tasks {
        assert (b.tasks - {t})[u] == (a.tasks - {t})[u];
      }
    }
  }

  lemma InstallUnproven(cfg: Config, sys: System, t: TaskId, id: ChallengeId, purpose: Purpose, supersedes: Option<ChallengeId>, at: real)
    ensures Unproven(sys, Install(cfg, sys, t, id, purpose, supersedes, at), t)
  {
    hide Answered;
  }

  lemma StartLoginUnproven(cfg: Config, sys: System, t: TaskId, user: UserId, row: User, chosen: Option<Channel>,
                           supersedes: Option<ChallengeId>, send: SendInput, at: real)
    ensures Unproven(sys, StartLogin(cfg, sys, t, user, row, chosen, supersedes, send, at), t)
  {
    hide Answered, Install;
    if chosen == Some(Totp) && row.secret.Some? {
      StartTotpUnproven(cfg, sys, t, ClaimTotp(send.id, user, SignIn, None, true), supersedes, at);
    }
  }

  lemma StartTotpUnproven(cfg: Config, sys: System, t: TaskId, op: Operation, supersedes: Option<ChallengeId>, at: real)
    requires op.ClaimTotp?
    ensures Unproven(sys, StartTotp(cfg, sys, t, op, supersedes, at), t)
  {
    hide Answered, Install;
    InstallUnproven(cfg, Asked(sys, op, at), t, op.id, op.purpose, supersedes, at);
  }

  /** A judged code: the request rests on this very call, or is over. */
  lemma JudgedIsSound(cfg: Config, a: System, t: TaskId, op: Operation, seen: Option<User>, at: real)
    requires op.Verify? && Sound(cfg, a)
    ensures Sound(cfg, JudgeCode(cfg, a, t, op, seen, at))
  {
    hide Step, After, Sound, AllGrounded, Linear;
    var b := JudgeCode(cfg, a, t, op, seen, at);
    OtherTasks(a, b, t);
    assert b.calls[..|a.calls|] == a.calls;
    if t in b.tasks && Answered(cfg, a, op, at).Verified? {
      assert AnswerTo(cfg, b.calls, |a.calls|) == Answered(cfg, a, op, at);
    }
    Preserved(cfg, a, b, InTask(t), InTask(t));
  }

  // -- Every step ------------------------------------------------------------------

  lemma UnprovenStep(cfg: Config, a: System, b: System, t: TaskId)
    requires Sound(cfg, a) && (b == a || Unproven(a, b, t))
    ensures Sound(cfg, b)
  {
    hide Sound, Unproven;
    if b != a {
      UnprovenIsSound(cfg, a, b, t);
    }
  }

  lemma PassFirstFactorSound(cfg: Config, a: System, t: TaskId, send: SendInput, at: real)
    requires Sound(cfg, a)
    ensures Sound(cfg, PassFirstFactor(cfg, a, t, send, at))
  {
    hide StartLogin, NewId, Sound, DefaultChannel;
    if Waits(a, t) && a.tasks[t].Identified? {
      var Identified(user, row, _) := a.tasks[t];
      StartLoginUnproven(cfg, a, t, user, row, DefaultChannel(row), None, send, at);
    }
    UnprovenStep(cfg, a, PassFirstFactor(cfg, a, t, send, at), t);
  }

  lemma SwitchSound(cfg: Config, a: System, t: TaskId, challenge: ChallengeId, channel: Channel, send: SendInput, at: real)
    requires Sound(cfg, a)
    ensures Sound(cfg, AskSwitch(cfg, a, t, challenge, at)) && Sound(cfg, PassSwitch(cfg, a, t, channel, send, at))
  {
    hide Answered, StartLogin, NewId, Sound;
    UnprovenStep(cfg, a, AskSwitch(cfg, a, t, challenge, at), t);
    if Waits(a, t) && a.tasks[t].Switching? && a.tasks[t].user in a.users {
      StartLoginUnproven(cfg, a, t, a.tasks[t].user, a.users[a.tasks[t].user], Some(channel), Some(a.tasks[t].challenge), send, at);
    }
    UnprovenStep(cfg, a, PassSwitch(cfg, a, t, channel, send, at), t);
  }

  lemma SaveSessionSound(cfg: Config, a: System, t: TaskId)
    requires Sound(cfg, a)
    ensures Sound(cfg, SaveSession(a, t))
  {
    hide AnswerTo;
    if Waits(a, t) && a.tasks[t].Issuing? {
      OtherTasks(a, SaveSession(a, t), t);
      assert Grounded(cfg, a.calls, At(a, InTask(t)).value);
      Preserved(cfg, a, SaveSession(a, t), InTask(t), InSession(|a.log.sessions|));
    }
  }

  lemma EnterCodeSound(cfg: Config, a: System, t: TaskId, flow: Purpose, challenge: ChallengeId, code: string, user: UserId, at: real)
    requires Sound(cfg, a)
    ensures Sound(cfg, EnterCode(cfg, a, t, flow, challenge, code, user, at))
  {
    hide Answered, JudgeCode, Sound;
    var asked := Asked(a, RequireLive(challenge, flow), at);
    UnprovenStep(cfg, a, asked, t);
    JudgedIsSound(cfg, asked, t, Verify(challenge, code, flow, Expected(flow, user), None), None, at);
    var owner := if Answered(cfg, a, RequireLive(challenge, flow), at).Live? && flow != VerifyContact
      then Answered(cfg, a, RequireLive(challenge, flow), at).challenge.user else user;
    UnprovenStep(cfg, a, Begin(asked, t, LoadingOwner(flow, challenge, code, owner, Expected(flow, user))), t);
  }

  lemma LoadOwnerSound(cfg: Config, a: System, t: TaskId, verdict: Verdict, at: real)
    requires Sound(cfg, a)
    ensures Sound(cfg, LoadOwner(cfg, a, t, verdict, at))
  {
    hide JudgeCode, Sound;
    UnprovenStep(cfg, a, End(a, t), t);
    if Waits(a, t) && a.tasks[t].LoadingOwner? {
      var LoadingOwner(flow, challenge, code, owner, expected) := a.tasks[t];
      if owner in a.users {
        JudgedIsSound(cfg, a, t, Verify(challenge, code, flow, expected, Some(verdict)), Some(a.users[owner]), at);
      }
    }
  }

  lemma UseProofSound(cfg: Config, a: System, t: TaskId, token: Token, at: real)
    requires Sound(cfg, a) && Until(a.calls, at)
    ensures Sound(cfg, UseProof(cfg, a, t, token, at))
  {
    hide AnswerTo;
    if Waits(a, t) && a.tasks[t].Proven? {
      var b := UseProof(cfg, a, t, token, at);
      OtherTasks(a, b, t);
      assert Grounded(cfg, a.calls, At(a, InTask(t)).value);
      var to := if b.tokens == a.tokens then InTask(t) else InAuthorization(token);
      Preserved(cfg, a, b, InTask(t), to);
    }
  }

  lemma SaveContactSound(cfg: Config, a: System, t: TaskId)
    requires Sound(cfg, a)
    ensures Sound(cfg, SaveContact(a, t))
  {
    hide AnswerTo, Taken, ConfirmedRow;
    if Waits(a, t) && a.tasks[t].Confirming? {
      OtherTasks(a, SaveContact(a, t), t);
      assert Grounded(cfg, a.calls, At(a, InTask(t)).value);
      Preserved(cfg, a, SaveContact(a, t), InTask(t), InContact(|a.log.contacts|));
    }
  }

  lemma SaveEnrolSound(cfg: Config, a: System, t: TaskId, id: ChallengeId, ttl: nat, at: real)
    requires Sound(cfg, a)
    ensures Sound(cfg, SaveEnrol(cfg, a, t, id, ttl, at))
  {
    hide StartTotp, NewId, Sound;
    if Waits(a, t) && a.tasks[t].Enrolling? && a.tasks[t].user in a.users {
      var user := a.tasks[t].user;
      var stored := a.(users := a.users[user := a.users[user].(secret := Some(a.tasks[t].secret))]);
      StartTotpUnproven(cfg, stored, t, ClaimTotp(id, user, VerifyContact, Some(ttl), false), None, at);
    }
    UnprovenStep(cfg, a, SaveEnrol(cfg, a, t, id, ttl, at), t);
  }

  lemma FindRecoverySound(cfg: Config, a: System, t: TaskId, user: UserId, channel: Channel, send: SendInput, at: real)
    requires Sound(cfg, a)
    ensures Sound(cfg, FindRecovery(cfg, a, t, user, channel, send, at))
  {
    hide Answered, StartTotp, NewId, Sound, Serves, DestinationFor;
    StartTotpUnproven(cfg, a, t, ClaimTotp(send.id, user, PasswordReset, None, true), None, at);
    UnprovenStep(cfg, a, FindRecovery(cfg, a, t, user, channel, send, at), t);
  }

  lemma AskResetSound(cfg: Config, a: System, t: TaskId, token: Token, at: real)
    requires Sound(cfg, a) && MintedBy(a, at)
    ensures Sound(cfg, AskReset(a, t, token, at))
  {
    hide AnswerTo;
    var b := AskReset(a, t, token, at);
    OtherTasks(a, b, t);
    if token in a.authorizations {
      assert Grounded(cfg, a.calls, At(a, InAuthorization(token)).value);
    }
    Preserved(cfg, a, b, InAuthorization(token), InTask(t));
  }

  lemma LoadResetSound(cfg: Config, a: System, t: TaskId)
    requires Sound(cfg, a)
    ensures Sound(cfg, LoadReset(a, t))
  {
    hide AnswerTo;
    if Waits(a, t) && a.tasks[t].Resetting? {
      OtherTasks(a, LoadReset(a, t), t);
      assert Grounded(cfg, a.calls, At(a, InTask(t)).value);
      Preserved(cfg, a, LoadReset(a, t), InTask(t), InTask(t));
    }
  }

  lemma SavePasswordSound(cfg: Config, a: System, t: TaskId, password: string)
    requires Sound(cfg, a)
    ensures Sound(cfg, SavePassword(a, t, password))
  {
    hide AnswerTo;
    if Waits(a, t) && a.tasks[t].SettingPassword? {
      var SettingPassword(user, proof, mintedAt, spentAt) := a.tasks[t];
      var c := End(a.(log := a.log.(passwords := a.log.passwords + [PasswordChange(user, password, proof, mintedAt, spentAt)])), t);
      OtherTasks(a, c, t);
      assert Grounded(cfg, a.calls, At(a, InTask(t)).value);
      Preserved(cfg, a, c, InTask(t), InPassword(|a.log.passwords|));
      PasswordSetSound(cfg, a, c, t, password);
    }
  }

  lemma PasswordSetSound(cfg: Config, a: System, c: System, t: TaskId, password: string)
    requires Sound(cfg, a) && Sound(cfg, c) && Waits(a, t) && a.tasks[t].SettingPassword?
    requires var SettingPassword(user, proof, mintedAt, spentAt) := a.tasks[t];
      c == End(a.(log := a.log.(passwords := a.log.passwords + [PasswordChange(user, password, proof, mintedAt, spentAt)])), t)
    ensures Sound(cfg, SavePassword(a, t, password))
  {
    hide Sound;
    var b := SavePassword(a, t, password);
    if b != a {
      assert b.tasks - {t} == c.tasks - {t};
      UnprovenStep(cfg, c, b, t);
    }
  }

  lemma RefreshPasswordSound(cfg: Config, a: System, t: TaskId, at: real)
    requires Sound(cfg, a)
    ensures Sound(cfg, RefreshPassword(a, t, at))
  {
    hide Grounded;
    if Waits(a, t) && a.tasks[t].PasswordSet? {
      OtherTasks(a, RefreshPassword(a, t, at), t);
      Preserved(cfg, a, RefreshPassword(a, t, at), InTask(t), InTask(t));
    }
  }

  lemma SameItemsSound(cfg: Config, a: System, b: System)
    requires Sound(cfg, a) && a.calls <= b.calls && b.tasks == a.tasks && b.authorizations == a.authorizations
    requires b.log == a.log
    ensures Sound(cfg, b)
  {
    Preserved(cfg, a, b, InSession(|a.log.sessions|), InSession(|a.log.sessions|));
  }

  /** No authorization is dated in the future. */
  ghost predicate MintedBy(sys: System, at: real) {
    forall k :: k in sys.authorizations ==> sys.authorizations[k].mintedAt <= at
  }

  lemma SimpleStepsSound(cfg: Config, a: System, action: Action, at: real)
    requires Sound(cfg, a)
    requires action.FirstFactorLoaded? || action.EnrolAsked? || action.DisableAsked?
      || action.DisableSaved? || action.DisableRefreshed? || action.Abandoned? || action.ChangeAsked? || action.ChangeSaved?
      || action.PreferenceAsked? || action.PreferenceSaved?
    ensures Sound(cfg, Perform(cfg, a, action, at))
  {
    hide PassFirstFactor, AskSwitch, PassSwitch, SaveSession, AskContact, ReturnSend, EnterCode, LoadOwner;
    hide UseProof, SaveContact, SaveEnrol, ChangeRow, AskRecovery, FindRecovery, AskReset, LoadReset, SavePassword;
    hide RefreshPassword;
    hide Sound, ProofOf;
    NoProof();
    UnprovenStep(cfg, a, Perform(cfg, a, action, at), action.task);
  }

  lemma NoProof()
    ensures forall user, row, n :: IsUnproven(Identified(user, row, n))
    ensures forall change :: IsUnproven(Changing(change))
    ensures forall user, channel, standing :: IsUnproven(Preferring(user, channel, standing))
    ensures forall user, secret :: IsUnproven(Enrolling(user, secret))
    ensures forall user, was :: IsUnproven(Disabling(user, was))
    ensures forall user :: IsUnproven(Disabled(user))
  {
  }

  lemma StoreStepsSound(cfg: Config, a: System, action: Action, at: real)
    requires Sound(cfg, a) && (action.ContactAsked? || action.SendReturned? || action.RecoveryAsked?)
    ensures Sound(cfg, Perform(cfg, a, action, at))
  {
    hide LoadFirstFactor, PassFirstFactor, AskSwitch, PassSwitch, SaveSession, EnterCode, LoadOwner, UseProof;
    hide SaveContact, AskEnrol, SaveEnrol, AskDisable, SaveDisable, RefreshDisable, ChangeRow, FindRecovery;
    hide AskReset, LoadReset, SavePassword, RefreshPassword;
    hide Answered, Install, NewId, Sound;
    var t, b := action.task, Perform(cfg, a, action, at);
    if action.SendReturned? && Waits(a, t) && a.tasks[t].Sending? {
      InstallUnproven(cfg, a, t, a.tasks[t].id, a.tasks[t].purpose, a.tasks[t].supersedes, at);
    }
    UnprovenStep(cfg, a, b, t);
  }

  lemma ChangeRowSound(cfg: Config, a: System, action: Action)
    requires Sound(cfg, a)
    ensures Sound(cfg, ChangeRow(a, action))
  {
    hide Sound, Taken, DestinationFor;
    SameItemsSound(cfg, a, ChangeRow(a, action));
  }

  lemma PerformIsSound(cfg: Config, a: System, action: Action, at: real)
    requires Sound(cfg, a) && MintedBy(a, at) && Until(a.calls, at)
    ensures Sound(cfg, Perform(cfg, a, action, at))
  {
    hide Sound, MintedBy, ChangeRow, PassFirstFactor, AskSwitch, PassSwitch, SaveSession, EnterCode, LoadOwner, UseProof, SaveContact, SaveEnrol;
    hide FindRecovery, AskReset, LoadReset, SavePassword, RefreshPassword, Taken, DestinationFor;
    hide AskContact, ReturnSend, AskRecovery, LoadFirstFactor, AskEnrol, AskDisable, SaveDisable, RefreshDisable;
    hide AskChange, SaveChange, AskPreference, SavePreference;
    match action
    case FirstFactorPassed(t, send) => PassFirstFactorSound(cfg, a, t, send, at);
    case SwitchAsked(t, challenge) => SwitchSound(cfg, a, t, challenge, Sms, SendInput(0, "", None, false), at);
    case SwitchLoaded(t, channel, send) => SwitchSound(cfg, a, t, 0, channel, send, at);
    case RecoveryFound(t, user, channel, send) => FindRecoverySound(cfg, a, t, user, channel, send, at);
    case CodeEntered(t, flow, challenge, code, user) => EnterCodeSound(cfg, a, t, flow, challenge, code, user, at);
    case OwnerLoaded(t, verdict) => LoadOwnerSound(cfg, a, t, verdict, at);
    case ProvenLoaded(t, token) => UseProofSound(cfg, a, t, token, at);
    case SessionSaved(t) => SaveSessionSound(cfg, a, t);
    case ContactSaved(t) => SaveContactSound(cfg, a, t);
    case EnrolSaved(t, id, ttl) => SaveEnrolSound(cfg, a, t, id, ttl, at);
    case ResetAsked(t, token) => AskResetSound(cfg, a, t, token, at);
    case ResetLoaded(t) => LoadResetSound(cfg, a, t);
    case PasswordSaved(t, password) => SavePasswordSound(cfg, a, t, password);
    case PasswordRefreshed(t) => RefreshPasswordSound(cfg, a, t, at);
    case StatusChanged(_, _) => ChangeRowSound(cfg, a, action);
    case Registered(_, _) => ChangeRowSound(cfg, a, action);
    case ContactAsked(_, _, _, _, _) => StoreStepsSound(cfg, a, action, at);
    case SendReturned(_, _) => StoreStepsSound(cfg, a, action, at);
    case RecoveryAsked(_, _) => StoreStepsSound(cfg, a, action, at);
    case _ => SimpleStepsSound(cfg, a, action, at);
  }

  /** The steps that start a challenge leave the authorizations alone. */
  lemma StartsKeepAuthorizations(cfg: Config, a: System, action: Action, at: real)
    requires action.FirstFactorPassed? || action.SwitchLoaded? || action.SendReturned? || action.EnrolSaved? || action.RecoveryFound?
    ensures Perform(cfg, a, action, at).authorizations == a.authorizations
  {
    hide LoadFirstFactor, AskSwitch, SaveSession, AskContact, EnterCode, LoadOwner, UseProof, SaveContact;
    hide AskEnrol, AskDisable, SaveDisable, RefreshDisable, ChangeRow, AskRecovery, AskReset, LoadReset, SavePassword;
    hide RefreshPassword;
    hide Answered, NewId, DestinationFor, Serves, DefaultChannel, StartLogin, StartTotp, Install;
    var t := action.task;
    match action
    case FirstFactorPassed(_, send) =>
      if Waits(a, t) && a.tasks[t].Identified? {
        var Identified(user, row, _) := a.tasks[t];
        StartLoginUnproven(cfg, a, t, user, row, DefaultChannel(row), None, send, at);
      }
    case SwitchLoaded(_, channel, send) =>
      if Waits(a, t) && a.tasks[t].Switching? && a.tasks[t].user in a.users {
        StartLoginUnproven(cfg, a, t, a.tasks[t].user, a.users[a.tasks[t].user], Some(channel), Some(a.tasks[t].challenge), send, at);
      }
    case SendReturned(_, _) =>
      if Waits(a, t) && a.tasks[t].Sending? {
        InstallUnproven(cfg, a, t, a.tasks[t].id, a.tasks[t].purpose, a.tasks[t].supersedes, at);
      }
    case EnrolSaved(_, id, ttl) =>
      if Waits(a, t) && a.tasks[t].Enrolling? && a.tasks[t].user in a.users {
        var user := a.tasks[t].user;
        var stored := a.(users := a.users[user := a.users[user].(secret := Some(a.tasks[t].secret))]);
        StartTotpUnproven(cfg, stored, t, ClaimTotp(id, user, VerifyContact, Some(ttl), false), None, at);
      }
    case RecoveryFound(_, user, channel, send) =>
      StartTotpUnproven(cfg, a, t, ClaimTotp(send.id, user, PasswordReset, None, true), None, at);
  }

  lemma AuthorizationsMintedBy(cfg: Config, a: System, action: Action, at: real)
    requires MintedBy(a, at)
    ensures action.ProvenLoaded? ==> MintedBy(UseProof(cfg, a, action.task, action.token, at), at)
    ensures action.ResetAsked? ==> MintedBy(AskReset(a, action.task, action.token, at), at)
    ensures action.PasswordRefreshed? ==> MintedBy(RefreshPassword(a, action.task, at), at)
  {
  }

  lemma AsksKeepAuthorizations(cfg: Config, a: System, action: Action, at: real)
    ensures action.CodeEntered? ==>
      EnterCode(cfg, a, action.task, action.flow, action.challenge, action.code, action.user, at).authorizations == a.authorizations
    ensures action.OwnerLoaded? ==> LoadOwner(cfg, a, action.task, action.verdict, at).authorizations == a.authorizations
    ensures action.SwitchAsked? ==> AskSwitch(cfg, a, action.task, action.challenge, at).authorizations == a.authorizations
    ensures action.RecoveryAsked? ==> AskRecovery(cfg, a, action.task, action.address, at).authorizations == a.authorizations
    ensures action.ContactAsked? ==>
      AskContact(cfg, a, action.task, action.user, action.channel, action.destination, action.send, at).authorizations == a.authorizations
  {
    hide Answered, NewId;
  }

  /** No step invents an authorization dated later than itself. */
  lemma PerformMintedBy(cfg: Config, a: System, action: Action, at: real)
    requires MintedBy(a, at)
    ensures MintedBy(Perform(cfg, a, action, at), at)
  {
    if action.ProvenLoaded? || action.ResetAsked? || action.PasswordRefreshed? {
      hide UseProof, AskReset, RefreshPassword;
      AuthorizationsMintedBy(cfg, a, action, at);
    } else {
      hide Perform;
      OthersKeepAuthorizations(cfg, a, action, at);
    }
  }

  lemma OthersKeepAuthorizations(cfg: Config, a: System, action: Action, at: real)
    requires !action.ProvenLoaded? && !action.ResetAsked? && !action.PasswordRefreshed?
    ensures Perform(cfg, a, action, at).authorizations == a.authorizations
  {
    if action.FirstFactorPassed? || action.SwitchLoaded? || action.SendReturned? || action.EnrolSaved? || action.RecoveryFound? {
      hide Perform;
      StartsKeepAuthorizations(cfg, a, action, at);
    } else {
      hide PassFirstFactor, PassSwitch, ReturnSend, SaveEnrol, FindRecovery, EnterCode, LoadOwner, AskSwitch, AskRecovery, AskContact;
      hide Taken, DestinationFor, ConfirmedRow, UseProof, AskReset, RefreshPassword;
      AsksKeepAuthorizations(cfg, a, action, at);
    }
  }

  // -- Calls stay sane -------------------------------------------------------------

  lemma InstallSane(cfg: Config, a: System, t: TaskId, id: ChallengeId, purpose: Purpose, supersedes: Option<ChallengeId>)
    requires SaneCalls(a)
    ensures SaneCalls(Install(cfg, a, t, id, purpose, supersedes, a.clock)) && Install(cfg, a, t, id, purpose, supersedes, a.clock).clock == a.clock
  {
    hide Answered, SaneCalls;
    AskedIsSane(a, Commit(id, supersedes));
    var committed := Asked(a, Commit(id, supersedes), a.clock);
    var switched := if supersedes.Some? then committed.switched + [supersedes.value] else committed.switched;
    SameSane(committed, committed.(switched := switched));
    AskedIsSane(committed.(switched := switched), RequireLive(id, purpose));
    SameSane(committed, Install(cfg, a, t, id, purpose, supersedes, a.clock));
    SameSane(Asked(committed.(switched := switched), RequireLive(id, purpose), a.clock), Install(cfg, a, t, id, purpose, supersedes, a.clock));
  }

  lemma SameSane(a: System, b: System)
    ensures SaneCalls(a) && b.calls == a.calls && b.clock == a.clock ==> SaneCalls(b)
  {
  }

  lemma StartTotpSane(cfg: Config, a: System, t: TaskId, op: Operation, supersedes: Option<ChallengeId>)
    requires SaneCalls(a) && op.ClaimTotp? && NewId(a, op.id)
    ensures SaneCalls(StartTotp(cfg, a, t, op, supersedes, a.clock)) && StartTotp(cfg, a, t, op, supersedes, a.clock).clock == a.clock
  {
    hide Answered, SaneCalls, Install, NewId;
    AskedIsSane(a, op);
    InstallSane(cfg, Asked(a, op, a.clock), t, op.id, op.purpose, supersedes);
    SameSane(Asked(a, op, a.clock), StartTotp(cfg, a, t, op, supersedes, a.clock));
  }

  lemma StartSendSane(cfg: Config, a: System, t: TaskId, op: Operation, supersedes: Option<ChallengeId>)
    requires SaneCalls(a) && op.Claim? && NewId(a, op.id)
    ensures SaneCalls(StartSend(cfg, a, t, op, supersedes, a.clock)) && StartSend(cfg, a, t, op, supersedes, a.clock).clock == a.clock
  {
    hide Answered, SaneCalls, NewId;
    AskedIsSane(a, op);
    SameSane(Asked(a, op, a.clock), StartSend(cfg, a, t, op, supersedes, a.clock));
  }

  lemma StartLoginSane(cfg: Config, a: System, t: TaskId, user: UserId, row: User, chosen: Option<Channel>,
                       supersedes: Option<ChallengeId>, send: SendInput)
    requires SaneCalls(a) && NewId(a, send.id)
    ensures var b := StartLogin(cfg, a, t, user, row, chosen, supersedes, send, a.clock); SaneCalls(b) && b.clock == a.clock
  {
    hide SaneCalls, NewId, StartTotp, StartSend, DestinationFor;
    StartTotpSane(cfg, a, t, ClaimTotp(send.id, user, SignIn, None, true), supersedes);
    if chosen.Some? {
      var claim := Claim(send.id, send.code, user, SignIn, chosen.value, DestinationFor(row, chosen.value), send.address);
      StartSendSane(cfg, a, t, claim, supersedes);
    }
    SameSane(a, End(a, t));
  }

  lemma JudgeSane(cfg: Config, a: System, t: TaskId, op: Operation, seen: Option<User>)
    requires SaneCalls(a) && op.Verify?
    ensures SaneCalls(JudgeCode(cfg, a, t, op, seen, a.clock)) && JudgeCode(cfg, a, t, op, seen, a.clock).clock == a.clock
  {
    hide Answered, SaneCalls;
    AskedIsSane(a, op);
    SameSane(Asked(a, op, a.clock), JudgeCode(cfg, a, t, op, seen, a.clock));
  }

  /** Steps that mint an id, or ask the store more than once. */
  lemma LongStepsSane(cfg: Config, a: System, action: Action)
    requires SaneCalls(a)
    requires action.FirstFactorPassed? || action.SwitchLoaded? || action.ContactAsked? || action.RecoveryFound? || action.EnrolSaved?
    ensures SaneCalls(Perform(cfg, a, action, a.clock)) && Perform(cfg, a, action, a.clock).clock == a.clock
  {
    hide LoadFirstFactor, AskSwitch, SaveSession, ReturnSend, EnterCode, LoadOwner, UseProof, SaveContact;
    hide AskEnrol, AskDisable, SaveDisable, RefreshDisable, ChangeRow, AskRecovery, AskReset, LoadReset, SavePassword;
    hide RefreshPassword;
    hide SaneCalls, NewId, StartTotp, StartSend, StartLogin, DestinationFor, Serves, DefaultChannel;
    match action
    case FirstFactorPassed(t, send) =>
      SameSane(a, End(a, t));
      if Waits(a, t) && a.tasks[t].Identified? && NewId(a, send.id) {
        var Identified(user, row, _) := a.tasks[t];
        SameSane(a, Begin(a, t, Issuing(user, a.tasks[t].loadedAt, None)));
        StartLoginSane(cfg, a, t, user, row, DefaultChannel(row), None, send);
      }
    case SwitchLoaded(t, channel, send) =>
      SameSane(a, End(a, t));
      if Waits(a, t) && a.tasks[t].Switching? && NewId(a, send.id) && a.tasks[t].user in a.users {
        StartLoginSane(cfg, a, t, a.tasks[t].user, a.users[a.tasks[t].user], Some(channel), Some(a.tasks[t].challenge), send);
      }
    case ContactAsked(t, user, channel, destination, send) =>
      if NewId(a, send.id) {
        StartSendSane(cfg, a, t, Claim(send.id, send.code, user, VerifyContact, channel, Some(destination), send.address), None);
      }
    case RecoveryFound(t, user, channel, send) =>
      SameSane(a, End(a, t));
      if NewId(a, send.id) {
        StartTotpSane(cfg, a, t, ClaimTotp(send.id, user, PasswordReset, None, true), None);
        if user in a.users {
          var claim := Claim(send.id, send.code, user, PasswordReset, channel, DestinationFor(a.users[user], channel), None);
          StartSendSane(cfg, a, t, claim, None);
        }
      }
    case EnrolSaved(t, id, ttl) =>
      SameSane(a, End(a, t));
      if Waits(a, t) && a.tasks[t].Enrolling? && NewId(a, id) && a.tasks[t].user in a.users {
        EnrolSane(cfg, a, t, id, ttl);
      }
  }

  lemma EnrolSane(cfg: Config, a: System, t: TaskId, id: ChallengeId, ttl: nat)
    requires SaneCalls(a) && Waits(a, t) && a.tasks[t].Enrolling? && NewId(a, id) && a.tasks[t].user in a.users
    ensures SaneCalls(SaveEnrol(cfg, a, t, id, ttl, a.clock)) && SaveEnrol(cfg, a, t, id, ttl, a.clock).clock == a.clock
  {
    hide SaneCalls, StartTotp;
    var Enrolling(user, secret) := a.tasks[t];
    var stored := a.(users := a.users[user := a.users[user].(secret := Some(secret))]);
    SameSane(a, stored);
    StartTotpSane(cfg, stored, t, ClaimTotp(id, user, VerifyContact, Some(ttl), false), None);
  }

  lemma CodesSane(cfg: Config, a: System, action: Action)
    requires SaneCalls(a)
    requires action.CodeEntered? || action.OwnerLoaded? || action.SendReturned? || action.SwitchAsked? || action.RecoveryAsked?
    ensures SaneCalls(Perform(cfg, a, action, a.clock)) && Perform(cfg, a, action, a.clock).clock == a.clock
  {
    hide LoadFirstFactor, PassFirstFactor, PassSwitch, SaveSession, AskContact, UseProof, SaveContact, AskEnrol;
    hide SaveEnrol, AskDisable, SaveDisable, RefreshDisable, ChangeRow, FindRecovery, AskReset, LoadReset;
    hide SavePassword, RefreshPassword;
    hide SaneCalls, Answered, Install, JudgeCode;
    var t, b := action.task, Perform(cfg, a, action, a.clock);
    match action
    case CodeEntered(_, flow, challenge, code, user) =>
      var asked := Asked(a, RequireLive(challenge, flow), a.clock);
      AskedIsSane(a, RequireLive(challenge, flow));
      SameSane(asked, b);
      JudgeSane(cfg, asked, t, Verify(challenge, code, flow, Expected(flow, user), None), None);
    case OwnerLoaded(_, verdict) =>
      SameSane(a, b);
      if Waits(a, t) && a.tasks[t].LoadingOwner? && a.tasks[t].owner in a.users {
        var LoadingOwner(flow, challenge, code, owner, expected) := a.tasks[t];
        JudgeSane(cfg, a, t, Verify(challenge, code, flow, expected, Some(verdict)), Some(a.users[owner]));
      }
    case SendReturned(_, _) =>
      SameSane(a, b);
      if Waits(a, t) && a.tasks[t].Sending? {
        InstallSane(cfg, a, t, a.tasks[t].id, a.tasks[t].purpose, a.tasks[t].supersedes);
        AskedIsSane(a, Discard(a.tasks[t].id, a.tasks[t].user));
        SameSane(Asked(a, Discard(a.tasks[t].id, a.tasks[t].user), a.clock), b);
      }
    case SwitchAsked(_, challenge) =>
      SameSane(a, b);
      AskedIsSane(a, RequireLive(challenge, SignIn));
      SameSane(Asked(a, RequireLive(challenge, SignIn), a.clock), b);
    case RecoveryAsked(_, address) =>
      SameSane(a, b);
      AskedIsSane(a, ReserveRequest(address));
      SameSane(Asked(a, ReserveRequest(address), a.clock), b);
  }

  lemma PerformSane(cfg: Config, a: System, action: Action)
    requires SaneCalls(a)
    ensures SaneCalls(Perform(cfg, a, action, a.clock)) && Perform(cfg, a, action, a.clock).clock == a.clock
  {
    hide SaneCalls, Answered, WithoutExpired, WithoutUser, Taken, DestinationFor, ConfirmedRow;
    hide PassFirstFactor, PassSwitch, AskContact, FindRecovery, SaveEnrol, EnterCode, LoadOwner, ReturnSend, AskSwitch, AskRecovery;
    if action.FirstFactorPassed? || action.SwitchLoaded? || action.ContactAsked? || action.RecoveryFound? || action.EnrolSaved? {
      LongStepsSane(cfg, a, action);
    } else if action.CodeEntered? || action.OwnerLoaded? || action.SendReturned? || action.SwitchAsked? || action.RecoveryAsked? {
      CodesSane(cfg, a, action);
    } else {
      var b := Perform(cfg, a, action, a.clock);
      SameSane(a, b);
      if (action.DisableRefreshed? || action.PasswordRefreshed?) && Waits(a, action.task)
         && (a.tasks[action.task].Disabled? || a.tasks[action.task].PasswordSet?) {
        AskedIsSane(a, Invalidate(a.tasks[action.task].user));
        SameSane(Asked(a, Invalidate(a.tasks[action.task].user), a.clock), b);
      }
    }
  }

  // -- Every run -------------------------------------------------------------------

  lemma {:induction false} EveryRunIsSound(cfg: Config, users: map<UserId, User>, actions: seq<Moment>)
    ensures var sys := Run(cfg, users, actions); SaneCalls(sys) && MintedBy(sys, sys.clock) && Sound(cfg, sys)
  {
    hide Perform, Sound, SaneCalls;
    if actions == [] {
      StartIsSound(cfg, users);
    } else {
      var n := |actions| - 1;
      var before, action, at := Run(cfg, users, actions[..n]), actions[n].action, actions[n].at;
      EveryRunIsSound(cfg, users, actions[..n]);
      if at >= before.clock {
        var a := before.(clock := at);
        LaterIsSane(before, at);
        SaneUntil(a);
        SameItemsSound(cfg, before, a);
        PerformIsSound(cfg, a, action, at);
        PerformMintedBy(cfg, a, action, at);
        PerformSane(cfg, a, action);
        TickIsSound(cfg, Perform(cfg, a, action, at), before.steps + 1);
      } else {
        TickIsSound(cfg, before, before.steps + 1);
      }
    }
  }

  lemma TickIsSound(cfg: Config, a: System, steps: nat)
    requires SaneCalls(a) && Sound(cfg, a)
    ensures SaneCalls(a.(steps := steps)) && Sound(cfg, a.(steps := steps))
  {
    hide Sound;
    SameItemsSound(cfg, a, a.(steps := steps));
  }

  lemma SaneUntil(a: System)
    requires SaneCalls(a)
    ensures Until(a.calls, a.clock)
  {
  }

  lemma LaterIsSane(a: System, at: real)
    requires SaneCalls(a) && a.clock <= at
    ensures SaneCalls(a.(clock := at))
  {
  }

  lemma StartIsSound(cfg: Config, users: map<UserId, User>)
    ensures var sys := Start(users); SaneCalls(sys) && MintedBy(sys, sys.clock) && Sound(cfg, sys)
  {
    hide Grounded;
  }

  // -- What the flows promise ------------------------------------------------------

  /** The two calls verified codes of two different challenges. */
  predicate DifferentChallenges(calls: seq<Call>, m: nat, n: nat) {
    m < |calls| && n < |calls| && calls[m].op.Verify? && calls[n].op.Verify? && calls[m].op.id != calls[n].op.id
  }

  lemma ProofsAreVerifies(cfg: Config, calls: seq<Call>, i: nat)
    requires i < |calls| && AnswerTo(cfg, calls, i).Verified?
    ensures calls[i].op.Verify?
  {
    hide Step, After;
    OnlyVerifyVerifies(cfg, After(cfg, calls[..i]), calls[i].op, calls[i].at);
  }

  /** Two items rest on two different challenges. */
  lemma DifferentCodes(cfg: Config, sys: System, p: Place, q: Place)
    requires Sound(cfg, sys) && SaneCalls(sys) && p != q
    requires ProofAt(sys, p).Some? && ProofAt(sys, q).Some?
    ensures DifferentChallenges(sys.calls, ProofAt(sys, p).value, ProofAt(sys, q).value)
  {
    hide AnswerTo;
    var m, n := ProofAt(sys, p).value, ProofAt(sys, q).value;
    assert Grounded(cfg, sys.calls, At(sys, p).value) && Grounded(cfg, sys.calls, At(sys, q).value);
    ProofsAreVerifies(cfg, sys.calls, m);
    ProofsAreVerifies(cfg, sys.calls, n);
    assert m != n;
    if sys.calls[m].op.id == sys.calls[n].op.id {
      VerifiedOnce(cfg, sys.calls, m, n);
    }
  }

  /** Sign-in: every session that rests on a code rests on a verified sign-in challenge of
      that same user, and no two sessions on the same one. */
  lemma ProvenSessions(cfg: Config, users: map<UserId, User>, actions: seq<Moment>, i: nat, j: nat)
    requires i < |Run(cfg, users, actions).log.sessions| && j < |Run(cfg, users, actions).log.sessions|
    requires Run(cfg, users, actions).log.sessions[i].proof.Some? && Run(cfg, users, actions).log.sessions[j].proof.Some?
    ensures
      var sys := Run(cfg, users, actions);
      var s, r := sys.log.sessions[i], sys.log.sessions[j];
      Proves(cfg, sys.calls, s.proof.value, s.user, SignIn)
      && (i != j ==> DifferentChallenges(sys.calls, s.proof.value, r.proof.value))
  {
    hide Run, AnswerTo, SaneCalls;
    var sys := Run(cfg, users, actions);
    EveryRunIsSound(cfg, users, actions);
    assert Grounded(cfg, sys.calls, At(sys, InSession(i)).value) && Grounded(cfg, sys.calls, At(sys, InSession(j)).value);
    if i != j {
      DifferentCodes(cfg, sys, InSession(i), InSession(j));
    }
  }

  /** Recovery: every password set by `complete` rests on a verified recovery challenge of
      that same user, through an authorization minted after the code was verified and spent
      less than its lifetime after that, and no two passwords on the same challenge. */
  lemma PasswordsRestOnCodes(cfg: Config, users: map<UserId, User>, actions: seq<Moment>, i: nat, j: nat)
    requires i < |Run(cfg, users, actions).log.passwords| && j < |Run(cfg, users, actions).log.passwords|
    ensures
      var sys := Run(cfg, users, actions);
      var p, q := sys.log.passwords[i], sys.log.passwords[j];
      && Recovers(cfg, sys.calls, p.proof, p.user, p.mintedAt) && Timely(cfg, p.mintedAt, p.spentAt)
      && (i != j ==> DifferentChallenges(sys.calls, p.proof, q.proof))
  {
    hide Run, AnswerTo, SaneCalls;
    var sys := Run(cfg, users, actions);
    EveryRunIsSound(cfg, users, actions);
    assert Grounded(cfg, sys.calls, At(sys, InPassword(i)).value);
    if i != j {
      DifferentCodes(cfg, sys, InPassword(i), InPassword(j));
    }
  }

  /** Contacts: every contact written by a confirmation is the destination the verified
      contact challenge of that same user had been sent to, and no two writes rest on the
      same challenge. */
  lemma ContactsRestOnCodes(cfg: Config, users: map<UserId, User>, actions: seq<Moment>, i: nat, j: nat)
    requires i < |Run(cfg, users, actions).log.contacts| && j < |Run(cfg, users, actions).log.contacts|
    ensures
      var sys := Run(cfg, users, actions);
      var w, v := sys.log.contacts[i], sys.log.contacts[j];
      && ProvesContact(cfg, sys.calls, w.proof, w.user, w.channel, Some(w.destination))
      && (i != j ==> DifferentChallenges(sys.calls, w.proof, v.proof))
  {
    hide Run, AnswerTo, SaneCalls;
    var sys := Run(cfg, users, actions);
    EveryRunIsSound(cfg, users, actions);
    assert Grounded(cfg, sys.calls, At(sys, InContact(i)).value);
    if i != j {
      DifferentCodes(cfg, sys, InContact(i), InContact(j));
    }
  }

  /** When `complete` returns, the user has no authorization left and no committed challenge
      of any purpose, and nobody else has lost an authorization. */
  lemma CompleteClears(cfg: Config, a: System, t: TaskId, at: real)
    requires Waits(a, t) && a.tasks[t].PasswordSet?
    ensures
      var b, user := RefreshPassword(a, t, at), a.tasks[t].user;
      && (forall k :: k in b.authorizations ==> b.authorizations[k].user != user)
      && (forall id :: id in After(cfg, b.calls).codes.live ==> After(cfg, b.calls).codes.live[id].user != user)
      && (forall k :: k in a.authorizations && a.authorizations[k].user != user ==> k in b.authorizations)
  {
    hide Step, After;
    InvalidatedHasNone(cfg, a.calls, a.tasks[t].user, at);
  }

  lemma InvalidatedHasNone(cfg: Config, calls: seq<Call>, user: UserId, at: real)
    ensures var live := After(cfg, calls + [Call(Invalidate(user), at)]).codes.live;
      forall id :: id in live ==> live[id].user != user
  {
    assert (calls + [Call(Invalidate(user), at)])[..|calls|] == calls;
    assert After(cfg, calls + [Call(Invalidate(user), at)]) == InvalidateStep(After(cfg, calls), user);
  }
}
