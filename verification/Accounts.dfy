/** All account flows at once: sign-in by password or Google, the second step, method
    switches, contact and authenticator enrolment, turning two-step verification off, and
    password recovery (auth_service.py, two_factor_service.py, password_reset_service.py).
    A request runs atomically from one `await` to the next, and requests interleave there in
    any order, so what a request has loaded may be stale when it acts on it. */
module Accounts {
  import opened Wrappers
  import opened Otp
  import opened OtpLifecycle

  // -- Data ------------------------------------------------------------------------

  /** The stored preference: nothing, a known channel, or some other text. */
  datatype Preference = Unset | Known(channel: Channel) | Unrecognised

  /** The columns of a user row that the flows read or write. An account created through
      Google has no password. */
  datatype User = User(
    active: bool, enabled: bool, preference: Preference, email: Option<Address>, mobile: Option<Address>,
    secret: Option<string>, password: Option<string>)

  function DefaultChannel(u: User): Option<Channel> {
    match u.preference case Unset => Some(Sms) case Known(channel) => Some(channel) case Unrecognised => None
  }

  function DestinationFor(u: User, channel: Channel): Option<Address> {
    match channel case Sms => u.mobile case Email => u.email case Totp => None
  }

  /** The channel can produce a code for this user, if its provider is configured. */
  predicate Serves(u: User, channel: Channel) {
    if channel == Totp then u.secret.Some? else DestinationFor(u, channel).Some?
  }

  type TaskId = int
  type Token = int

  /** A request between two awaits, and what it remembers across the next one. A `proof` is
      the index of the call that verified the code the request rests on; `loadedAt` is the
      number of steps the system had taken when the request read the row it acts on. */
  datatype Task =
    | Identified(user: UserId, row: User, loadedAt: nat)
    | Switching(challenge: ChallengeId, user: UserId)
    | Sending(id: ChallengeId, user: UserId, purpose: Purpose, supersedes: Option<ChallengeId>)
    | Recovering
    | LoadingOwner(flow: Purpose, challenge: ChallengeId, code: string, owner: UserId, expected: Option<UserId>)
    | Proven(proof: nat, c: Challenge, seen: Option<User>, loadedAt: nat)
    | Issuing(user: UserId, loadedAt: nat, sessionProof: Option<nat>)
    | Confirming(user: UserId, proof: nat, channel: Channel, destination: Option<Address>, loaded: User)
    | Enrolling(user: UserId, secret: string)
    | Disabling(user: UserId, wasEnabled: bool)
    | Disabled(user: UserId)
    | Resetting(user: UserId, proof: nat, mintedAt: real, spentAt: real)
    | SettingPassword(user: UserId, proof: nat, mintedAt: real, spentAt: real)
    | PasswordSet(user: UserId)
    | Changing(change: OwnChange)
    | Preferring(user: UserId, channel: Channel, standing: Preference)

  datatype Authorization = Authorization(user: UserId, expiresAt: real, mintedAt: real, proof: nat)

  datatype Session = Session(user: UserId, loadedAt: nat, proof: Option<nat>, issuedAt: nat)

  datatype PasswordChange = PasswordChange(user: UserId, password: string, proof: nat, mintedAt: real, spentAt: real)

  /** A password changed by its owner, who gave `given` when the row held `held`. */
  datatype OwnChange = OwnChange(user: UserId, password: string, given: string, held: Option<string>, loadedAt: nat)

  datatype ContactWrite = ContactWrite(user: UserId, channel: Channel, destination: Address, proof: nat)

  /** What the flows have done to the accounts. */
  datatype Log = Log(
    sessions: seq<Session>, passwords: seq<PasswordChange>, changes: seq<OwnChange>, contacts: seq<ContactWrite>)

  /** The process and the database; `calls` is everything the code store was ever asked, and
      `steps` counts the steps taken. */
  datatype System = System(
    calls: seq<Call>, clock: real, steps: nat, users: map<UserId, User>, tasks: map<TaskId, Task>,
    authorizations: map<Token, Authorization>, tokens: set<Token>, log: Log,
    switched: seq<ChallengeId>, lost: set<ChallengeId>)

  /** What a send needs besides the account: a fresh id and code, the client's address, and
      whether the provider is configured. */
  datatype SendInput = SendInput(id: ChallengeId, code: string, address: Option<Address>, configured: bool)

  datatype Action =
    | FirstFactorLoaded(task: TaskId, user: UserId)
    | FirstFactorPassed(task: TaskId, send: SendInput)
    | SwitchAsked(task: TaskId, challenge: ChallengeId)
    | SwitchLoaded(task: TaskId, channel: Channel, send: SendInput)
    | ContactAsked(task: TaskId, user: UserId, channel: Channel, destination: Address, send: SendInput)
    | RecoveryAsked(task: TaskId, address: Option<Address>)
    | RecoveryFound(task: TaskId, user: UserId, channel: Channel, send: SendInput)
    | SendReturned(task: TaskId, ok: bool)
    | CodeEntered(task: TaskId, flow: Purpose, challenge: ChallengeId, code: string, user: UserId)
    | OwnerLoaded(task: TaskId, verdict: Verdict)
    | ProvenLoaded(task: TaskId, token: Token)
    | SessionSaved(task: TaskId)
    | ContactSaved(task: TaskId)
    | EnrolAsked(task: TaskId, user: UserId, secret: string)
    | EnrolSaved(task: TaskId, id: ChallengeId, ttl: nat)
    | DisableAsked(task: TaskId, user: UserId)
    | DisableSaved(task: TaskId)
    | DisableRefreshed(task: TaskId)
    | ResetAsked(task: TaskId, token: Token)
    | ResetLoaded(task: TaskId)
    | PasswordSaved(task: TaskId, password: string)
    | PasswordRefreshed(task: TaskId)
    | ChangeAsked(task: TaskId, user: UserId, given: string, password: string)
    | ChangeSaved(task: TaskId)
    | PreferenceAsked(task: TaskId, user: UserId, channel: Channel)
    | PreferenceSaved(task: TaskId)
    | StatusChanged(user: UserId, active: bool)
    | Registered(user: UserId, row: User)
    | Abandoned(task: TaskId)

  // -- Pieces of a request ---------------------------------------------------------

  function Answered(cfg: Config, sys: System, op: Operation, at: real): Answer {
    Step(cfg, After(cfg, sys.calls), op, at).answer
  }

  /** The code store is asked. */
  function Asked(sys: System, op: Operation, at: real): System {
    sys.(calls := sys.calls + [Call(op, at)])
  }

  function Begin(sys: System, t: TaskId, task: Task): System {
    sys.(tasks := sys.tasks[t := task])
  }

  function End(sys: System, t: TaskId): System {
    sys.(tasks := sys.tasks - {t})
  }

  /** Commit, and read the challenge back for the history. */
  function Install(cfg: Config, sys: System, t: TaskId, id: ChallengeId, purpose: Purpose,
                   supersedes: Option<ChallengeId>, at: real): System
  {
    var commit := Commit(id, supersedes);
    var committed := Asked(sys, commit, at);
    if Answered(cfg, sys, commit, at) != Accepted then End(committed.(lost := committed.lost + {id}), t)
    else
      var switched := if supersedes.Some? then committed.switched + [supersedes.value] else committed.switched;
      End(Asked(committed.(switched := switched), RequireLive(id, purpose), at), t)
  }

  /** An authenticator challenge is claimed and installed in one go: nothing is sent. */
  function StartTotp(cfg: Config, sys: System, t: TaskId, op: Operation, supersedes: Option<ChallengeId>, at: real): System
    requires op.ClaimTotp?
  {
    var claimed := Asked(sys, op, at);
    if Answered(cfg, sys, op, at) != Issued(op.id) then End(claimed, t)
    else Install(cfg, claimed, t, op.id, op.purpose, supersedes, at)
  }

  /** A sent code is claimed before the provider is awaited. */
  function StartSend(cfg: Config, sys: System, t: TaskId, op: Operation, supersedes: Option<ChallengeId>, at: real): System
    requires op.Claim?
  {
    var claimed := Asked(sys, op, at);
    if Answered(cfg, sys, op, at) != Issued(op.id) then End(claimed, t)
    else Begin(claimed, t, Sending(op.id, op.user, op.purpose, supersedes))
  }

  /** `_start_otp_login`: it fails closed when the account cannot be reached that way. */
  function StartLogin(cfg: Config, sys: System, t: TaskId, user: UserId, row: User, chosen: Option<Channel>,
                      supersedes: Option<ChallengeId>, send: SendInput, at: real): System
  {
    if chosen == Some(Totp) then
      if row.secret.None? then End(sys, t)
      else StartTotp(cfg, sys, t, ClaimTotp(send.id, user, SignIn, None, true), supersedes, at)
    else if chosen.None? || DestinationFor(row, chosen.value).None? || !send.configured then End(sys, t)
    else
      var claim := Claim(send.id, send.code, user, SignIn, chosen.value, DestinationFor(row, chosen.value), send.address);
      StartSend(cfg, sys, t, claim, supersedes, at)
  }

  /** The code is judged; a right one is proof, named by the index of this call. */
  function JudgeCode(cfg: Config, sys: System, t: TaskId, op: Operation, seen: Option<User>, at: real): System
    requires op.Verify?
  {
    var judged := Asked(sys, op, at);
    match Answered(cfg, sys, op, at)
    case Verified(c) => Begin(judged, t, Proven(|sys.calls|, c, seen, sys.steps))
    case _ => End(judged, t)
  }

  /** What a confirmed contact writes: only the columns that differ from the loaded row. */
  function ConfirmedRow(now: User, loaded: User, channel: Channel, destination: Option<Address>): User {
    now.(
      email := if channel == Email && destination.Some? && destination != loaded.email then destination else now.email,
      mobile := if channel == Sms && destination.Some? && destination != loaded.mobile then destination else now.mobile,
      enabled := if loaded.enabled then now.enabled else true,
      preference := if !loaded.enabled && loaded.preference != Known(channel) then Known(channel) else now.preference)
  }

  /** The unique constraints on contacts. */
  predicate Taken(users: map<UserId, User>, user: UserId, row: User) {
    exists other :: other in users && other != user
      && ((row.email.Some? && users[other].email == row.email) || (row.mobile.Some? && users[other].mobile == row.mobile))
  }

  function WithoutExpired(authorizations: map<Token, Authorization>, now: real): map<Token, Authorization> {
    map t | t in authorizations && authorizations[t].expiresAt > now :: authorizations[t]
  }

  function WithoutUser(authorizations: map<Token, Authorization>, user: UserId): map<Token, Authorization> {
    map t | t in authorizations && authorizations[t].user != user :: authorizations[t]
  }

  // -- Steps by request ------------------------------------------------------------

  predicate Idle(sys: System, t: TaskId) { t !in sys.tasks }

  predicate NewId(sys: System, id: ChallengeId) { !WasMinted(sys.calls, id) }

  predicate Waits(sys: System, t: TaskId) { t in sys.tasks }

  /** A user row is loaded; the password is checked against it, or Google vouches for it. */
  function LoadFirstFactor(sys: System, t: TaskId, user: UserId): System {
    if Idle(sys, t) && user in sys.users then Begin(sys, t, Identified(user, sys.users[user], sys.steps)) else sys
  }

  function PassFirstFactor(cfg: Config, sys: System, t: TaskId, send: SendInput, at: real): System {
    if !Waits(sys, t) || !sys.tasks[t].Identified? || !NewId(sys, send.id) then sys
    else
      var Identified(user, row, loadedAt) := sys.tasks[t];
      if !row.active then End(sys, t)
      else if row.enabled then StartLogin(cfg, sys, t, user, row, DefaultChannel(row), None, send, at)
      else Begin(sys, t, Issuing(user, loadedAt, None))
  }

  function AskSwitch(cfg: Config, sys: System, t: TaskId, challenge: ChallengeId, at: real): System {
    if !Idle(sys, t) then sys
    else
      var look := RequireLive(challenge, SignIn);
      match Answered(cfg, sys, look, at)
      case Live(c) => Begin(Asked(sys, look, at), t, Switching(challenge, c.user))
      case _ => Asked(sys, look, at)
  }

  function PassSwitch(cfg: Config, sys: System, t: TaskId, channel: Channel, send: SendInput, at: real): System {
    if !Waits(sys, t) || !sys.tasks[t].Switching? || !NewId(sys, send.id) then sys
    else
      var Switching(challenge, user) := sys.tasks[t];
      if user !in sys.users || !sys.users[user].active || !sys.users[user].enabled then End(sys, t)
      else StartLogin(cfg, sys, t, user, sys.users[user], Some(channel), Some(challenge), send, at)
  }

  function SaveSession(sys: System, t: TaskId): System {
    if !Waits(sys, t) || !sys.tasks[t].Issuing? then sys
    else
      var Issuing(user, loadedAt, proof) := sys.tasks[t];
      End(sys.(log := sys.log.(sessions := sys.log.sessions + [Session(user, loadedAt, proof, sys.steps)])), t)
  }

  /** The refusals before a contact's claim read rows that may be stale, so they are not
      relied on: any contact may be claimed for. */
  function AskContact(cfg: Config, sys: System, t: TaskId, user: UserId, channel: Channel, destination: Address,
                      send: SendInput, at: real): System
  {
    if !Idle(sys, t) || !NewId(sys, send.id) || channel == Totp || !send.configured then sys
    else StartSend(cfg, sys, t, Claim(send.id, send.code, user, VerifyContact, channel, Some(destination), send.address), None, at)
  }

  function ReturnSend(cfg: Config, sys: System, t: TaskId, ok: bool, at: real): System {
    if !Waits(sys, t) || !sys.tasks[t].Sending? then sys
    else
      var Sending(id, user, purpose, supersedes) := sys.tasks[t];
      if ok then Install(cfg, sys, t, id, purpose, supersedes, at) else End(Asked(sys, Discard(id, user), at), t)
  }

  /** Confirming a contact names its user; the other flows take the challenge's own. */
  function Expected(flow: Purpose, user: UserId): Option<UserId> {
    if flow == VerifyContact then Some(user) else None
  }

  function EnterCode(cfg: Config, sys: System, t: TaskId, flow: Purpose, challenge: ChallengeId, code: string,
                     user: UserId, at: real): System
  {
    if !Idle(sys, t) then sys
    else
      var look := RequireLive(challenge, flow);
      match Answered(cfg, sys, look, at)
      case Live(c) =>
        if c.channel == Totp then
          var owner := if flow == VerifyContact then user else c.user;
          Begin(Asked(sys, look, at), t, LoadingOwner(flow, challenge, code, owner, Expected(flow, user)))
        else JudgeCode(cfg, Asked(sys, look, at), t, Verify(challenge, code, flow, Expected(flow, user), None), None, at)
      case _ => Asked(sys, look, at)
  }

  /** Without an enrolled secret an authenticator code is not checked against anything. */
  function LoadOwner(cfg: Config, sys: System, t: TaskId, verdict: Verdict, at: real): System {
    if !Waits(sys, t) || !sys.tasks[t].LoadingOwner? then sys
    else
      var LoadingOwner(flow, challenge, code, owner, expected) := sys.tasks[t];
      if owner !in sys.users || sys.users[owner].secret.None? then End(sys, t)
      else JudgeCode(cfg, sys, t, Verify(challenge, code, flow, expected, Some(verdict)), Some(sys.users[owner]), at)
  }

  /** A proven code is put to its use. The row an authenticator check has loaded is the one
      this request keeps seeing. */
  function UseProof(cfg: Config, sys: System, t: TaskId, token: Token, at: real): System {
    if !Waits(sys, t) || !sys.tasks[t].Proven? then sys
    else
      var Proven(proof, c, seen, seenAt) := sys.tasks[t];
      if c.user !in sys.users then End(sys, t)
      else
        var row := if seen.Some? then seen.value else sys.users[c.user];
        var loadedAt := if seen.Some? then seenAt else sys.steps;
        match c.purpose
        case SignIn =>
          if row.active && row.enabled then Begin(sys, t, Issuing(c.user, loadedAt, Some(proof))) else End(sys, t)
        case VerifyContact =>
          if c.channel != Totp && c.destination.None? then End(sys, t)
          else Begin(sys, t, Confirming(c.user, proof, c.channel, c.destination, row))
        case PasswordReset =>
          if !row.active || token in sys.tokens then End(sys, t)
          else
            var authorization := Authorization(c.user, at + cfg.authorizationTtl as real, at, proof);
            End(sys.(authorizations := WithoutExpired(sys.authorizations, at)[token := authorization],
                     tokens := sys.tokens + {token}), t)
  }

  function SaveContact(sys: System, t: TaskId): System {
    if !Waits(sys, t) || !sys.tasks[t].Confirming? then sys
    else
      var Confirming(user, proof, channel, destination, loaded) := sys.tasks[t];
      if user !in sys.users || Taken(sys.users, user, ConfirmedRow(sys.users[user], loaded, channel, destination)) then End(sys, t)
      else
        var row := ConfirmedRow(sys.users[user], loaded, channel, destination);
        var written := if channel != Totp && destination.Some?
          then sys.log.contacts + [ContactWrite(user, channel, destination.value, proof)] else sys.log.contacts;
        End(sys.(users := sys.users[user := row], log := sys.log.(contacts := written)), t)
  }

  function AskEnrol(sys: System, t: TaskId, user: UserId, secret: string): System {
    if Idle(sys, t) && user in sys.users then Begin(sys, t, Enrolling(user, secret)) else sys
  }

  function SaveEnrol(cfg: Config, sys: System, t: TaskId, id: ChallengeId, ttl: nat, at: real): System {
    if !Waits(sys, t) || !sys.tasks[t].Enrolling? || !NewId(sys, id) then sys
    else
      var Enrolling(user, secret) := sys.tasks[t];
      if user !in sys.users then End(sys, t)
      else
        var stored := sys.(users := sys.users[user := sys.users[user].(secret := Some(secret))]);
        StartTotp(cfg, stored, t, ClaimTotp(id, user, VerifyContact, Some(ttl), false), None, at)
  }

  function AskDisable(sys: System, t: TaskId, user: UserId): System {
    if Idle(sys, t) && user in sys.users then Begin(sys, t, Disabling(user, sys.users[user].enabled)) else sys
  }

  function SaveDisable(sys: System, t: TaskId): System {
    if !Waits(sys, t) || !sys.tasks[t].Disabling? || sys.tasks[t].user !in sys.users then sys
    else
      var Disabling(user, wasEnabled) := sys.tasks[t];
      var row := sys.users[user];
      Begin(sys.(users := sys.users[user := if wasEnabled then row.(enabled := false) else row]), t, Disabled(user))
  }

  function RefreshDisable(sys: System, t: TaskId, at: real): System {
    if !Waits(sys, t) || !sys.tasks[t].Disabled? then sys
    else End(Asked(sys, Invalidate(sys.tasks[t].user), at), t)
  }

  /** A new password by its owner: whoever has one must give it, whoever has none sets a
      first one. */
  function AskChange(sys: System, t: TaskId, user: UserId, given: string, password: string): System {
    if !Idle(sys, t) || user !in sys.users then sys
    else
      var held := sys.users[user].password;
      if held.Some? && held.value != given then sys
      else Begin(sys, t, Changing(OwnChange(user, password, given, held, sys.steps)))
  }

  function SaveChange(sys: System, t: TaskId): System {
    if !Waits(sys, t) || !sys.tasks[t].Changing? || sys.tasks[t].change.user !in sys.users then sys
    else
      var change := sys.tasks[t].change;
      End(sys.(users := sys.users[change.user := sys.users[change.user].(password := Some(change.password))],
               log := sys.log.(changes := sys.log.changes + [change])), t)
  }

  /** What the profile update takes as proof that a method can be a default: the e-mail
      address for e-mail, the mobile number for anything else. */
  function PreferenceContact(row: User, channel: Channel): Option<Address> {
    if channel == Email then row.email else row.mobile
  }

  function AskPreference(sys: System, t: TaskId, user: UserId, channel: Channel): System {
    if !Idle(sys, t) || user !in sys.users || PreferenceContact(sys.users[user], channel).None? then sys
    else Begin(sys, t, Preferring(user, channel, sys.users[user].preference))
  }

  function SavePreference(sys: System, t: TaskId): System {
    if !Waits(sys, t) || !sys.tasks[t].Preferring? || sys.tasks[t].user !in sys.users then sys
    else
      var Preferring(user, channel, standing) := sys.tasks[t];
      var row := sys.users[user];
      End(sys.(users := sys.users[user := if standing == Known(channel) then row else row.(preference := Known(channel))]), t)
  }

  /** Rows changed elsewhere: the account's status, a new account. */
  function ChangeRow(sys: System, a: Action): System {
    match a
    case StatusChanged(user, active) =>
      if user !in sys.users then sys else sys.(users := sys.users[user := sys.users[user].(active := active)])
    case Registered(user, row) =>
      if user in sys.users || row.enabled || Taken(sys.users, user, row) then sys else sys.(users := sys.users[user := row])
    case _ => sys
  }

  function AskRecovery(cfg: Config, sys: System, t: TaskId, address: Option<Address>, at: real): System {
    if !Idle(sys, t) then sys
    else if Answered(cfg, sys, ReserveRequest(address), at) == Accepted then Begin(Asked(sys, ReserveRequest(address), at), t, Recovering)
    else Asked(sys, ReserveRequest(address), at)
  }

  /** No client address here: the request has been counted already. */
  function FindRecovery(cfg: Config, sys: System, t: TaskId, user: UserId, channel: Channel, send: SendInput, at: real): System {
    if !Waits(sys, t) || !sys.tasks[t].Recovering? || !NewId(sys, send.id) then sys
    else if user !in sys.users || !sys.users[user].active || !Serves(sys.users[user], channel) then End(sys, t)
    else if channel == Totp then StartTotp(cfg, sys, t, ClaimTotp(send.id, user, PasswordReset, None, true), None, at)
    else if !send.configured then End(sys, t)
    else
      var claim := Claim(send.id, send.code, user, PasswordReset, channel, DestinationFor(sys.users[user], channel), None);
      StartSend(cfg, sys, t, claim, None, at)
  }

  /** The authorization is spent before anything is written. */
  function AskReset(sys: System, t: TaskId, token: Token, at: real): System {
    if !Idle(sys, t) then sys
    else
      var left := WithoutExpired(sys.authorizations, at);
      var pruned := sys.(authorizations := left - {token});
      if token !in left then pruned
      else Begin(pruned, t, Resetting(left[token].user, left[token].proof, left[token].mintedAt, at))
  }

  function LoadReset(sys: System, t: TaskId): System {
    if !Waits(sys, t) || !sys.tasks[t].Resetting? then sys
    else
      var Resetting(user, proof, mintedAt, spentAt) := sys.tasks[t];
      if user !in sys.users || !sys.users[user].active then End(sys, t)
      else Begin(sys, t, SettingPassword(user, proof, mintedAt, spentAt))
  }

  function SavePassword(sys: System, t: TaskId, password: string): System {
    if !Waits(sys, t) || !sys.tasks[t].SettingPassword? || sys.tasks[t].user !in sys.users then sys
    else
      var SettingPassword(user, proof, mintedAt, spentAt) := sys.tasks[t];
      var change := PasswordChange(user, password, proof, mintedAt, spentAt);
      Begin(sys.(users := sys.users[user := sys.users[user].(password := Some(password))],
                 log := sys.log.(passwords := sys.log.passwords + [change])), t, PasswordSet(user))
  }

  /** `complete` returns: the user's live codes and authorizations are dropped. */
  function RefreshPassword(sys: System, t: TaskId, at: real): System {
    if !Waits(sys, t) || !sys.tasks[t].PasswordSet? then sys
    else
      var user := sys.tasks[t].user;
      End(Asked(sys, Invalidate(user), at).(authorizations := WithoutUser(sys.authorizations, user)), t)
  }

  function Perform(cfg: Config, sys: System, a: Action, at: real): System {
    match a
    case FirstFactorLoaded(t, user) => LoadFirstFactor(sys, t, user)
    case FirstFactorPassed(t, send) => PassFirstFactor(cfg, sys, t, send, at)
    case SwitchAsked(t, challenge) => AskSwitch(cfg, sys, t, challenge, at)
    case SwitchLoaded(t, channel, send) => PassSwitch(cfg, sys, t, channel, send, at)
    case ContactAsked(t, user, channel, destination, send) => AskContact(cfg, sys, t, user, channel, destination, send, at)
    case RecoveryAsked(t, address) => AskRecovery(cfg, sys, t, address, at)
    case RecoveryFound(t, user, channel, send) => FindRecovery(cfg, sys, t, user, channel, send, at)
    case SendReturned(t, ok) => ReturnSend(cfg, sys, t, ok, at)
    case CodeEntered(t, flow, challenge, code, user) => EnterCode(cfg, sys, t, flow, challenge, code, user, at)
    case OwnerLoaded(t, verdict) => LoadOwner(cfg, sys, t, verdict, at)
    case ProvenLoaded(t, token) => UseProof(cfg, sys, t, token, at)
    case SessionSaved(t) => SaveSession(sys, t)
    case ContactSaved(t) => SaveContact(sys, t)
    case EnrolAsked(t, user, secret) => AskEnrol(sys, t, user, secret)
    case EnrolSaved(t, id, ttl) => SaveEnrol(cfg, sys, t, id, ttl, at)
    case DisableAsked(t, user) => AskDisable(sys, t, user)
    case DisableSaved(t) => SaveDisable(sys, t)
    case DisableRefreshed(t) => RefreshDisable(sys, t, at)
    case ResetAsked(t, token) => AskReset(sys, t, token, at)
    case ResetLoaded(t) => LoadReset(sys, t)
    case PasswordSaved(t, password) => SavePassword(sys, t, password)
    case PasswordRefreshed(t) => RefreshPassword(sys, t, at)
    case ChangeAsked(t, user, given, password) => AskChange(sys, t, user, given, password)
    case ChangeSaved(t) => SaveChange(sys, t)
    case PreferenceAsked(t, user, channel) => AskPreference(sys, t, user, channel)
    case PreferenceSaved(t) => SavePreference(sys, t)
    case Abandoned(t) => End(sys, t)
    case _ => ChangeRow(sys, a)
  }

  /** One atomic step at one reading of the clock. */
  function Next(cfg: Config, sys: System, a: Action, at: real): System {
    var next := if at < sys.clock then sys else Perform(cfg, sys.(clock := at), a, at);
    next.(steps := sys.steps + 1)
  }

  datatype Moment = Moment(action: Action, at: real)

  /** The accounts start with two-step verification off. */
  predicate Fresh(users: map<UserId, User>) {
    forall u :: u in users ==> !users[u].enabled
  }

  function Start(users: map<UserId, User>): System {
    System([], 0.0, 0, users, map[], map[], {}, Log([], [], [], []), [], {})
  }

  /** Every run of the whole system. */
  function Run(cfg: Config, users: map<UserId, User>, actions: seq<Moment>): System {
    if actions == [] then Start(users)
    else
      var n := |actions| - 1;
      Next(cfg, Run(cfg, users, actions[..n]), actions[n].action, actions[n].at)
  }

  lemma {:induction false} StepsTaken(cfg: Config, users: map<UserId, User>, actions: seq<Moment>)
    ensures Run(cfg, users, actions).steps == |actions|
  {
    hide Perform;
    if actions != [] {
      StepsTaken(cfg, users, actions[..|actions| - 1]);
    }
  }

  lemma RunNext(cfg: Config, users: map<UserId, User>, actions: seq<Moment>, n: nat)
    requires n < |actions|
    ensures Run(cfg, users, actions[..n + 1]) == Next(cfg, Run(cfg, users, actions[..n]), actions[n].action, actions[n].at)
  {
    hide Next;
    assert actions[..n + 1][..n] == actions[..n];
  }
}
