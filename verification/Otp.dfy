/** The one-time-code store of backend/app/services/otp_service.py as a timed state
    machine: every public operation is one atomic step at one reading of the clock. */
module Otp {
  import opened Wrappers

  // -- Data ------------------------------------------------------------------------

  datatype Purpose = SignIn | VerifyContact | PasswordReset

  /** The budget a send draws on. */
  datatype LimitGroup = SignInGroup | RecoveryGroup

  datatype Channel = Sms | Email | Totp

  type UserId = int
  type ChallengeId = int
  type Address = string

  /** The keyed hash of a code: equal only for equal inputs. */
  datatype Digest = Mac(challenge: ChallengeId, code: string)

  /** One outstanding verification attempt. An authenticator challenge has no digest. */
  datatype Challenge = Challenge(
    user: UserId, purpose: Purpose, digest: Option<Digest>, expiresAt: real, attemptsLeft: int,
    channel: Channel, destination: Option<Address>)

  datatype Settings = Settings(
    codeTtl: int, cooldown: int, maxAttempts: int, dailySends: int, window: int,
    perDestination: int, perAddress: int, lockout: int, resetDailySends: int, authorizationTtl: int)

  /** The bounds the configuration is validated against. */
  type Config = c: Settings |
      && c.codeTtl >= 30 && c.cooldown >= 0 && c.maxAttempts >= 1 && c.dailySends >= 1 && c.window >= 30
      && c.perDestination >= 1 && c.perAddress >= 1 && c.lockout >= 0 && c.resetDailySends >= 1
      && c.authorizationTtl >= 60
    witness Settings(120, 60, 5, 10, 900, 3, 10, 300, 5, 600)

  const DAY := 86400
  const MAX_DAILY_HISTORY := 64

  /** The outstanding codes: `live` ones can be verified, `pending` ones are claimed but not
      yet sent. */
  datatype Codes = Codes(live: map<ChallengeId, Challenge>, pending: map<ChallengeId, Challenge>)

  /** What bounds sends and requests. */
  datatype Limits = Limits(
    lastSend: map<(LimitGroup, UserId, Channel), real>,
    sends: map<(LimitGroup, UserId), seq<real>>,
    destinationSends: map<(Channel, Address), seq<real>>,
    addressSends: map<Address, seq<real>>,
    addressRequests: map<Address, seq<real>>)

  /** What bounds guesses at an authenticator. */
  datatype Guard = Guard(failures: map<UserId, seq<real>>, locks: map<UserId, real>)

  datatype State = State(codes: Codes, limits: Limits, guard: Guard)

  const EMPTY := State(Codes(map[], map[]), Limits(map[], map[], map[], map[], map[]), Guard(map[], map[]))

  datatype Limit = Cooldown | DestinationWindow | AddressWindow | RequestWindow | DailyCap | Lockout

  datatype Answer =
    | Accepted
    | Issued(id: ChallengeId)
    | Live(challenge: Challenge)
    | Verified(challenge: Challenge)
    | Gone
    | WrongCode
    | Unavailable
    | Refused(limit: Limit, retryAfter: int)

  /** What a validator says of the code it is given; it may also raise. */
  datatype Verdict = Right | Wrong | Raises

  datatype Operation =
    | Claim(id: ChallengeId, code: string, user: UserId, purpose: Purpose, channel: Channel,
            destination: Option<Address>, address: Option<Address>)
    | ClaimTotp(id: ChallengeId, user: UserId, purpose: Purpose, ttl: Option<nat>, throttled: bool)
    | Commit(id: ChallengeId, supersedes: Option<ChallengeId>)
    | Discard(id: ChallengeId, user: UserId)
    | RequireLive(id: ChallengeId, purpose: Purpose)
    | Verify(id: ChallengeId, code: string, purpose: Purpose, expectedUser: Option<UserId>, validator: Option<Verdict>)
    | ReserveRequest(address: Option<Address>)
    | Invalidate(user: UserId)

  datatype Outcome = Outcome(state: State, answer: Answer)

  // -- Timed events ----------------------------------------------------------------

  function Events<K(==)>(store: map<K, seq<real>>, key: K): seq<real> {
    if key in store then store[key] else []
  }

  /** The events no older than `cutoff`. */
  function Since(q: seq<real>, cutoff: real): (r: seq<real>)
    ensures |r| <= |q|
    ensures forall i :: 0 <= i < |r| ==> r[i] >= cutoff
  {
    if q == [] then []
    else
      var n := |q| - 1;
      Since(q[..n], cutoff) + if q[n] >= cutoff then [q[n]] else []
  }

  /** What is left once the events older than `cutoff` have left the front of the queue. */
  function Dropped(q: seq<real>, cutoff: real): (r: seq<real>)
    ensures |r| <= |q|
  {
    if q == [] || q[0] >= cutoff then q else Dropped(q[1..], cutoff)
  }

  lemma {:induction false} DroppedTwice(q: seq<real>, cutoff: real)
    ensures Dropped(Dropped(q, cutoff), cutoff) == Dropped(q, cutoff)
  {
    if q != [] && q[0] < cutoff {
      DroppedTwice(q[1..], cutoff);
    }
  }

  function Least(q: seq<real>): (m: real)
    requires q != []
    ensures m in q && forall i :: 0 <= i < |q| ==> m <= q[i]
  {
    if |q| == 1 then q[0]
    else
      var m := Least(q[1..]);
      if q[0] <= m then q[0] else m
  }

  /** A bounded queue loses its oldest entry when it is full. */
  function Push(q: seq<real>, x: real, capacity: nat): seq<real> {
    if |q| < capacity then q + [x] else (q + [x])[1..]
  }

  /** The `Retry-After` of a window that has reached its limit. */
  function WindowRefusal(q: seq<real>, limit: int, window: int, now: real): Option<int>
    requires limit >= 1
  {
    var recent := Since(q, now - window as real);
    if |recent| >= limit then Some((Least(recent) + window as real - now).Floor + 1) else None
  }

  // -- Pruning ---------------------------------------------------------------------

  /** The entries whose value passes a test. */
  function Kept<K(==), V>(store: map<K, V>, keep: V -> bool): map<K, V> {
    map k | k in store && keep(store[k]) :: store[k]
  }

  function Valid(now: real): Challenge -> bool {
    (c: Challenge) => c.expiresAt > now
  }

  function Holding(now: real): real -> bool {
    (lockedUntil: real) => lockedUntil > now
  }

  function Cooling(cooldown: int, now: real): real -> bool {
    (sentAt: real) => now - sentAt < cooldown as real
  }

  function PruneEvents<K(==)>(store: map<K, seq<real>>, cutoff: real): map<K, seq<real>> {
    map k | k in store && Dropped(store[k], cutoff) != [] :: Dropped(store[k], cutoff)
  }

  function PruneCodes(codes: Codes, now: real): Codes {
    Codes(Kept(codes.live, Valid(now)), Kept(codes.pending, Valid(now)))
  }

  function PruneLimits(cfg: Config, l: Limits, now: real): Limits {
    var cutoff := now - cfg.window as real;
    Limits(
      Kept(l.lastSend, Cooling(cfg.cooldown, now)),
      PruneEvents(l.sends, now - DAY as real),
      PruneEvents(l.destinationSends, cutoff),
      PruneEvents(l.addressSends, cutoff),
      PruneEvents(l.addressRequests, cutoff))
  }

  function PruneGuard(cfg: Config, g: Guard, now: real): Guard {
    Guard(PruneEvents(g.failures, now - cfg.window as real), Kept(g.locks, Holding(now)))
  }

  function Prune(cfg: Config, s: State, now: real): State {
    State(PruneCodes(s.codes, now), PruneLimits(cfg, s.limits, now), PruneGuard(cfg, s.guard, now))
  }

  lemma EventsPrunedTwice<K>(store: map<K, seq<real>>, cutoff: real)
    ensures PruneEvents(PruneEvents(store, cutoff), cutoff) == PruneEvents(store, cutoff)
  {
    forall k | k in store ensures Dropped(Dropped(store[k], cutoff), cutoff) == Dropped(store[k], cutoff) {
      DroppedTwice(store[k], cutoff);
    }
  }

  /** Pruning again at the same reading of the clock changes nothing. */
  lemma PruneTwice(cfg: Config, s: State, now: real)
    ensures Prune(cfg, Prune(cfg, s, now), now) == Prune(cfg, s, now)
  {
    LimitsPrunedTwice(cfg, s.limits, now);
    EventsPrunedTwice(s.guard.failures, now - cfg.window as real);
    KeptTwice(s.guard.locks, Holding(now));
    KeptTwice(s.codes.live, Valid(now));
    KeptTwice(s.codes.pending, Valid(now));
    hide Kept, PruneEvents;
  }

  lemma KeptTwice<K, V>(store: map<K, V>, keep: V -> bool)
    ensures Kept(Kept(store, keep), keep) == Kept(store, keep)
  {
  }

  lemma LimitsPrunedTwice(cfg: Config, l: Limits, now: real)
    ensures PruneLimits(cfg, PruneLimits(cfg, l, now), now) == PruneLimits(cfg, l, now)
  {
    var cutoff := now - cfg.window as real;
    EventsPrunedTwice(l.sends, now - DAY as real);
    EventsPrunedTwice(l.destinationSends, cutoff);
    EventsPrunedTwice(l.addressSends, cutoff);
    EventsPrunedTwice(l.addressRequests, cutoff);
    KeptTwice(l.lastSend, Cooling(cfg.cooldown, now));
    hide Kept, PruneEvents;
  }

  // -- Limits ----------------------------------------------------------------------

  function GroupOf(purpose: Purpose): LimitGroup {
    if purpose == PasswordReset then RecoveryGroup else SignInGroup
  }

  function DailyLimit(cfg: Config, group: LimitGroup): (cap: int)
    ensures cap >= 1
  {
    if group == RecoveryGroup then cfg.resetDailySends else cfg.dailySends
  }

  function DailyCapacity(cfg: Config, group: LimitGroup): nat {
    var cap := DailyLimit(cfg, group);
    if cap > MAX_DAILY_HISTORY then cap else MAX_DAILY_HISTORY
  }

  /** What a new challenge is measured by. */
  datatype Request = Request(
    user: UserId, channel: Channel, purpose: Purpose, destination: Option<Address>, address: Option<Address>,
    sendsMessage: bool)

  function CooldownRefusal(cfg: Config, l: Limits, r: Request, now: real): Option<Answer> {
    var key := (GroupOf(r.purpose), r.user, r.channel);
    if key !in l.lastSend then None
    else
      var elapsed := now - l.lastSend[key];
      if elapsed < cfg.cooldown as real then Some(Refused(Cooldown, (cfg.cooldown as real - elapsed).Floor + 1)) else None
  }

  function DestinationRefusal(cfg: Config, l: Limits, r: Request, now: real): Option<Answer> {
    if r.destination.None? then None
    else match WindowRefusal(Events(l.destinationSends, (r.channel, r.destination.value)), cfg.perDestination, cfg.window, now)
      case Some(wait) => Some(Refused(DestinationWindow, wait))
      case None => None
  }

  function AddressRefusal(cfg: Config, l: Limits, r: Request, now: real): Option<Answer> {
    if r.address.None? then None
    else match WindowRefusal(Events(l.addressSends, r.address.value), cfg.perAddress, cfg.window, now)
      case Some(wait) => Some(Refused(AddressWindow, wait))
      case None => None
  }

  function DailyRefusal(cfg: Config, l: Limits, r: Request): Option<Answer> {
    var group := GroupOf(r.purpose);
    if r.sendsMessage && |Events(l.sends, (group, r.user))| >= DailyLimit(cfg, group) then Some(Refused(DailyCap, DAY)) else None
  }

  /** The first limit that refuses the request, if any does. */
  function Refusal(cfg: Config, l: Limits, r: Request, now: real): Option<Answer> {
    if CooldownRefusal(cfg, l, r, now).Some? then CooldownRefusal(cfg, l, r, now)
    else if DestinationRefusal(cfg, l, r, now).Some? then DestinationRefusal(cfg, l, r, now)
    else if AddressRefusal(cfg, l, r, now).Some? then AddressRefusal(cfg, l, r, now)
    else DailyRefusal(cfg, l, r)
  }

  function Append<K(==)>(store: map<K, seq<real>>, key: K, now: real): map<K, seq<real>> {
    store[key := Events(store, key) + [now]]
  }

  /** An accepted request, recorded under every limit it is measured by. */
  function Recorded(cfg: Config, l: Limits, r: Request, now: real): Limits {
    var group := GroupOf(r.purpose);
    Limits(
      l.lastSend[(group, r.user, r.channel) := now],
      if !r.sendsMessage then l.sends
      else l.sends[(group, r.user) := Push(Events(l.sends, (group, r.user)), now, DailyCapacity(cfg, group))],
      if r.destination.None? then l.destinationSends else Append(l.destinationSends, (r.channel, r.destination.value), now),
      if r.address.None? then l.addressSends else Append(l.addressSends, r.address.value, now),
      l.addressRequests)
  }

  /** The refusal of a locked account. */
  function LockRefusal(g: Guard, user: UserId, now: real): Option<Answer> {
    var remaining := (if user in g.locks then g.locks[user] else 0.0) - now;
    if remaining > 0.0 then Some(Refused(Lockout, remaining.Floor + 1)) else None
  }

  // -- The operations --------------------------------------------------------------

  predicate Mints(op: Operation) { op.Claim? || op.ClaimTotp? }

  function RequestOf(op: Operation): Request
    requires Mints(op)
  {
    if op.Claim? then Request(op.user, op.channel, op.purpose, op.destination, op.address, true)
    else Request(op.user, Totp, op.purpose, None, None, false)
  }

  /** The challenge a claim mints; a lifetime of zero means the default one. */
  function Minted(cfg: Config, op: Operation, now: real): Challenge
    requires Mints(op)
  {
    if op.Claim? then
      Challenge(op.user, op.purpose, Some(Mac(op.id, op.code)), now + cfg.codeTtl as real, cfg.maxAttempts, op.channel, op.destination)
    else
      var ttl := if op.ttl.Some? && op.ttl.value != 0 then op.ttl.value else cfg.codeTtl;
      Challenge(op.user, op.purpose, None, now + ttl as real, cfg.maxAttempts, Totp, None)
  }

  /** Enrolling an authenticator draws on no budget. */
  predicate Unthrottled(op: Operation) { op.ClaimTotp? && !op.throttled }

  function ClaimRefusal(cfg: Config, s: State, op: Operation, now: real): Option<Answer>
    requires Mints(op)
  {
    if op.ClaimTotp? && LockRefusal(s.guard, op.user, now).Some? then LockRefusal(s.guard, op.user, now)
    else if Unthrottled(op) then None
    else Refusal(cfg, s.limits, RequestOf(op), now)
  }

  function ClaimStep(cfg: Config, s: State, op: Operation, now: real): Outcome
    requires Mints(op)
  {
    match ClaimRefusal(cfg, s, op, now)
    case Some(refusal) => Outcome(s, refusal)
    case None =>
      var limits := if Unthrottled(op) then s.limits else Recorded(cfg, s.limits, RequestOf(op), now);
      Outcome(State(Codes(s.codes.live, s.codes.pending[op.id := Minted(cfg, op, now)]), limits, s.guard), Issued(op.id))
  }

  function OtherThan(user: UserId, purpose: Option<Purpose>): Challenge -> bool {
    (c: Challenge) => c.user != user || (purpose.Some? && c.purpose != purpose.value)
  }

  /** Without the user's challenges, of one purpose or of all. */
  function ClearUser(store: map<ChallengeId, Challenge>, user: UserId, purpose: Option<Purpose>): map<ChallengeId, Challenge> {
    Kept(store, OtherThan(user, purpose))
  }

  predicate Commits(codes: Codes, id: ChallengeId, supersedes: Option<ChallengeId>) {
    id in codes.pending && (supersedes.None? || supersedes.value in codes.live)
  }

  /** Not pruned first: an expired challenge still in the store is committed. */
  function Committed(codes: Codes, id: ChallengeId, supersedes: Option<ChallengeId>): Codes {
    var left := codes.pending - {id};
    if !Commits(codes, id, supersedes) then Codes(codes.live, left)
    else
      var c := codes.pending[id];
      Codes(ClearUser(codes.live, c.user, Some(c.purpose))[id := c], left)
  }

  function Find(codes: Codes, id: ChallengeId): Option<Challenge> {
    if id in codes.pending then Some(codes.pending[id])
    else if id in codes.live then Some(codes.live[id])
    else None
  }

  function DiscardStep(s: State, id: ChallengeId, user: UserId): State {
    match Find(s.codes, id)
    case None => s
    case Some(c) =>
      if c.user != user then s
      else State(
        Codes(s.codes.live - {id}, s.codes.pending - {id}),
        s.limits.(lastSend := s.limits.lastSend - {(GroupOf(c.purpose), user, c.channel)}),
        s.guard)
  }

  function Lookup(codes: Codes, id: ChallengeId, purpose: Purpose): Option<Challenge> {
    if id in codes.live && codes.live[id].purpose == purpose then Some(codes.live[id]) else None
  }

  /** A challenge without a digest needs a validator; a validator, when there is one, decides. */
  function Judge(c: Challenge, id: ChallengeId, code: string, validator: Option<Verdict>): Verdict {
    match validator
    case Some(verdict) => verdict
    case None => if c.digest == Some(Mac(id, code)) then Right else Wrong
  }

  /** A wrong authenticator code counts towards the lock. */
  function FailureRecorded(cfg: Config, g: Guard, user: UserId, now: real): Guard {
    var failures := Events(g.failures, user) + [now];
    Guard(g.failures[user := failures],
          if |failures| >= cfg.maxAttempts then g.locks[user := now + cfg.lockout as real] else g.locks)
  }

  function AttemptSpent(live: map<ChallengeId, Challenge>, id: ChallengeId, c: Challenge): map<ChallengeId, Challenge> {
    var left := c.attemptsLeft - 1;
    if left <= 0 then live - {id} else live[id := c.(attemptsLeft := left)]
  }

  function AfterWrong(cfg: Config, s: State, id: ChallengeId, c: Challenge, now: real): State {
    State(Codes(AttemptSpent(s.codes.live, id, c), s.codes.pending), s.limits,
          if c.channel == Totp then FailureRecorded(cfg, s.guard, c.user, now) else s.guard)
  }

  function AfterRight(s: State, id: ChallengeId, c: Challenge): State {
    State(Codes(s.codes.live - {id}, s.codes.pending), s.limits,
          if c.channel == Totp then Guard(s.guard.failures - {c.user}, s.guard.locks) else s.guard)
  }

  /** Why a code is not looked at, if it is not. */
  function VerifyRefusal(s: State, op: Operation, now: real): Option<Answer>
    requires op.Verify?
  {
    match Lookup(s.codes, op.id, op.purpose)
    case None => Some(Gone)
    case Some(c) =>
      if op.expectedUser.Some? && c.user != op.expectedUser.value then Some(Gone)
      else if c.channel == Totp then LockRefusal(s.guard, c.user, now)
      else None
  }

  function VerifyStep(cfg: Config, s: State, op: Operation, now: real): Outcome
    requires op.Verify?
  {
    match VerifyRefusal(s, op, now)
    case Some(refusal) => Outcome(s, refusal)
    case None =>
      var c := s.codes.live[op.id];
      match Judge(c, op.id, op.code, op.validator)
      case Raises => Outcome(s, Unavailable)
      case Wrong => Outcome(AfterWrong(cfg, s, op.id, c, now), WrongCode)
      case Right => Outcome(AfterRight(s, op.id, c), Verified(c))
  }

  function ReserveRequestStep(cfg: Config, s: State, address: Address, now: real): Outcome {
    match WindowRefusal(Events(s.limits.addressRequests, address), cfg.perAddress, cfg.window, now)
    case Some(wait) => Outcome(s, Refused(RequestWindow, wait))
    case None =>
      Outcome(s.(limits := s.limits.(addressRequests := Append(s.limits.addressRequests, address, now))), Accepted)
  }

  function InvalidateStep(s: State, user: UserId): State {
    State(Codes(ClearUser(s.codes.live, user, None), s.codes.pending), s.limits,
          Guard(s.guard.failures - {user}, s.guard.locks - {user}))
  }

  /** One call at one reading of the clock. */
  function Step(cfg: Config, s: State, op: Operation, now: real): Outcome {
    match op
    case Commit(id, supersedes) =>
      Outcome(s.(codes := Committed(s.codes, id, supersedes)), if Commits(s.codes, id, supersedes) then Accepted else Gone)
    case Discard(id, user) => Outcome(DiscardStep(s, id, user), Accepted)
    case RequireLive(id, purpose) =>
      var pruned := Prune(cfg, s, now);
      Outcome(pruned, match Lookup(pruned.codes, id, purpose) { case Some(c) => Live(c) case None => Gone })
    case Verify(_, _, _, _, _) => VerifyStep(cfg, Prune(cfg, s, now), op, now)
    case ReserveRequest(address) =>
      if address.None? then Outcome(s, Accepted) else ReserveRequestStep(cfg, Prune(cfg, s, now), address.value, now)
    case Invalidate(user) => Outcome(InvalidateStep(s, user), Accepted)
    case _ => ClaimStep(cfg, Prune(cfg, s, now), op, now)
  }

  // -- Runs ------------------------------------------------------------------------

  datatype Call = Call(op: Operation, at: real)

  /** The store after a run of calls from the empty store. */
  function After(cfg: Config, calls: seq<Call>): State {
    if calls == [] then EMPTY
    else
      var n := |calls| - 1;
      Step(cfg, After(cfg, calls[..n]), calls[n].op, calls[n].at).state
  }

  function AnswerTo(cfg: Config, calls: seq<Call>, i: nat): Answer
    requires i < |calls|
  {
    Step(cfg, After(cfg, calls[..i]), calls[i].op, calls[i].at).answer
  }

  lemma AfterOne(cfg: Config, calls: seq<Call>, call: Call)
    ensures After(cfg, calls + [call]) == Step(cfg, After(cfg, calls), call.op, call.at).state
    ensures AnswerTo(cfg, calls + [call], |calls|) == Step(cfg, After(cfg, calls), call.op, call.at).answer
  {
    hide Step;
    assert (calls + [call])[..|calls|] == calls;
  }

  /** The clock never runs backwards. */
  predicate Timed(calls: seq<Call>) {
    && (forall i :: 0 <= i < |calls| ==> calls[i].at >= 0.0)
    && forall i, j :: 0 <= i < j < |calls| ==> calls[i].at <= calls[j].at
  }

  /** Every challenge id is drawn once. */
  predicate FreshIds(calls: seq<Call>) {
    forall i, j :: 0 <= i < j < |calls| && Mints(calls[i].op) && Mints(calls[j].op) ==> calls[i].op.id != calls[j].op.id
  }
}
