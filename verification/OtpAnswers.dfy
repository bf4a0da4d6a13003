/** What every claim and every recovery request is answered, in terms of what was accepted
    before it in the run and of the configured numbers alone
    (`_reserve` in backend/app/services/otp_service.py). */
module OtpAnswers {
  import opened Wrappers
  import opened Otp
  import opened OtpLifecycle
  import opened OtpWindows
  import opened OtpBudgets
  import opened OtpLockout
  import opened OtpWaits

  // -- What was accepted before ----------------------------------------------------

  /** Recovering a password has an allowance and cooldowns of its own; signing in and verifying
      a contact share theirs. */
  predicate SameKind(p: Purpose, q: Purpose) { p == PasswordReset <==> q == PasswordReset }

  predicate IsAccepted(answer: Answer) { answer.Issued? || answer == Accepted }

  /** How many of the accepted calls that `counts` lie in the closed interval. */
  function AcceptedIn(cfg: Config, calls: seq<Call>, counts: Operation -> bool, from: real, to: real): nat {
    if calls == [] then 0
    else
      var n := |calls| - 1;
      var last := calls[n];
      AcceptedIn(cfg, calls[..n], counts, from, to)
      + if counts(last.op) && from <= last.at <= to && IsAccepted(Step(cfg, After(cfg, calls[..n]), last.op, last.at).answer) then 1 else 0
  }

  /** Codes sent to the user for this kind of purpose. */
  function SentFor(user: UserId, purpose: Purpose): Operation -> bool {
    (op: Operation) => op.Claim? && op.user == user && SameKind(op.purpose, purpose)
  }

  function SentTo(channel: Channel, destination: Address): Operation -> bool {
    (op: Operation) => op.Claim? && op.channel == channel && op.destination == Some(destination)
  }

  function SentFrom(address: Address): Operation -> bool {
    (op: Operation) => op.Claim? && op.address == Some(address)
  }

  function RequestedFrom(address: Address): Operation -> bool {
    (op: Operation) => op.ReserveRequest? && op.address == Some(address)
  }

  /** A new challenge on this channel, for this kind of purpose; enrolling an authenticator
      starts no cooldown. */
  predicate Starts(op: Operation, user: UserId, purpose: Purpose, channel: Channel) {
    match op
    case Claim(_, _, u, p, c, _, _) => u == user && SameKind(p, purpose) && c == channel
    case ClaimTotp(_, u, p, _, throttled) => u == user && SameKind(p, purpose) && channel == Totp && throttled
    case _ => false
  }

  /** The owner discards a challenge on this channel that the store still holds. */
  predicate GivesBack(codes: Codes, op: Operation, user: UserId, purpose: Purpose, channel: Channel) {
    op.Discard? && op.user == user && match Find(codes, op.id)
      case Some(c) => c.user == user && SameKind(c.purpose, purpose) && c.channel == channel
      case None => false
  }

  /** When the cooldown last started, unless it has been given back since. */
  function LastStart(cfg: Config, calls: seq<Call>, user: UserId, purpose: Purpose, channel: Channel): Option<real> {
    if calls == [] then None
    else
      var n := |calls| - 1;
      var s, last := After(cfg, calls[..n]), calls[n];
      if Starts(last.op, user, purpose, channel) && Step(cfg, s, last.op, last.at).answer.Issued? then Some(last.at)
      else if GivesBack(s.codes, last.op, user, purpose, channel) then None
      else LastStart(cfg, calls[..n], user, purpose, channel)
  }

  predicate Cooling(cfg: Config, start: Option<real>, now: real) {
    start.Some? && now - start.value < cfg.cooldown as real
  }

  // -- Counting --------------------------------------------------------------------

  /** The counter that a kind of call is measured by. */
  function CountsFor(c: Counter): Operation -> bool {
    match c
    case Destination(channel, address) => SentTo(channel, address)
    case Sends(address) => SentFrom(address)
    case Requests(address) => RequestedFrom(address)
    case Daily(group, user) => SentFor(user, if group == RecoveryGroup then PasswordReset else SignIn)
  }

  lemma AcceptedIsCounted(cfg: Config, s: State, call: Call, c: Counter)
    ensures var answer := Step(cfg, s, call.op, call.at).answer;
      Counts(call.op, answer, c) <==> CountsFor(c)(call.op) && IsAccepted(answer)
  {
    hide Prune, Recorded, WindowRefusal, Minted, Committed, Refusal, LockRefusal;
    RefusalsRefuse(cfg, Prune(cfg, s, call.at), call.op, call.at);
  }

  lemma {:induction false} AcceptedIsHistory(cfg: Config, calls: seq<Call>, c: Counter, from: real, to: real)
    ensures AcceptedIn(cfg, calls, CountsFor(c), from, to) == Within(History(cfg, calls, c), from, to)
  {
    hide Step, Counts, CountsFor, IsAccepted;
    if calls != [] {
      var n := |calls| - 1;
      var h, last := History(cfg, calls[..n], c), calls[n];
      AcceptedIsHistory(cfg, calls[..n], c, from, to);
      AcceptedIsCounted(cfg, After(cfg, calls[..n]), last, c);
      assert (h + [last.at])[..|h|] == h;
      assert h + [] == h;
    }
  }

  lemma RoomIsCounted(cfg: Config, calls: seq<Call>, c: Counter, now: real)
    requires Timed(calls) && Until(calls, now)
    ensures HasRoom(cfg, Stored(Prune(cfg, After(cfg, calls), now).limits, c), now, c)
      <==> AcceptedIn(cfg, calls, CountsFor(c), now - Horizon(cfg, c) as real, now) < Cap(cfg, c)
  {
    hide After, Stored, HasRoom, Dropped, Within, History, AcceptedIn, CountsFor, PruneLimits;
    RoomExactly(cfg, calls, c, now);
    PruneStores(cfg, After(cfg, calls).limits, now, c);
    PruneIsByParts(cfg, After(cfg, calls), now);
    AcceptedIsHistory(cfg, calls, c, now - Horizon(cfg, c) as real, now);
  }

  // -- Cooldowns -------------------------------------------------------------------

  function KeyFor(user: UserId, purpose: Purpose, channel: Channel): (LimitGroup, UserId, Channel) {
    (if purpose == PasswordReset then RecoveryGroup else SignInGroup, user, channel)
  }

  lemma StartsIsDraws(op: Operation, answer: Answer, user: UserId, purpose: Purpose, channel: Channel)
    ensures Starts(op, user, purpose, channel) && answer.Issued? <==> Draws(op, answer, KeyFor(user, purpose, channel))
  {
  }

  lemma GivesBackIsReleases(s: State, op: Operation, user: UserId, purpose: Purpose, channel: Channel)
    ensures GivesBack(s.codes, op, user, purpose, channel) <==> Releases(s, op, KeyFor(user, purpose, channel))
  {
    hide Find;
  }

  lemma ReleaseEnds(cfg: Config, s: State, call: Call, key: (LimitGroup, UserId, Channel), now: real)
    requires Releases(s, call.op, key)
    ensures CooldownLeft(cfg, Step(cfg, s, call.op, call.at).state, key, now) <= 0.0
  {
    hide Find;
  }

  /** What a cooldown that started then has left. */
  predicate LeftSince(cfg: Config, left: real, start: Option<real>, now: real) {
    if Cooling(cfg, start, now) then left == cfg.cooldown as real - (now - start.value) else left <= 0.0
  }

  lemma {:induction false} LeftIsHistory(cfg: Config, calls: seq<Call>, user: UserId, purpose: Purpose, channel: Channel, now: real)
    requires Until(calls, now)
    ensures LeftSince(cfg, CooldownLeft(cfg, After(cfg, calls), KeyFor(user, purpose, channel), now),
                      LastStart(cfg, calls, user, purpose, channel), now)
  {
    hide Step, Starts, GivesBack, Draws, Releases;
    var key := KeyFor(user, purpose, channel);
    if calls != [] {
      var n := |calls| - 1;
      var s, last := After(cfg, calls[..n]), calls[n];
      LeftIsHistory(cfg, calls[..n], user, purpose, channel, now);
      StartsIsDraws(last.op, Step(cfg, s, last.op, last.at).answer, user, purpose, channel);
      GivesBackIsReleases(s, last.op, user, purpose, channel);
      if Draws(last.op, Step(cfg, s, last.op, last.at).answer, key) {
        DrawRecords(cfg, s, last, key);
      } else {
        StepCooldown(cfg, s, last, key, now);
        if Releases(s, last.op, key) {
          ReleaseEnds(cfg, s, last, key, now);
        }
      }
    }
  }

  lemma CooldownIsHistory(cfg: Config, calls: seq<Call>, op: Operation, now: real)
    requires Mints(op) && Until(calls, now)
    ensures var start := LastStart(cfg, calls, op.user, op.purpose, RequestOf(op).channel);
      CooldownRefusal(cfg, Prune(cfg, After(cfg, calls), now).limits, RequestOf(op), now)
      == if Cooling(cfg, start, now) then Some(Refused(Cooldown, (cfg.cooldown as real - (now - start.value)).Floor + 1)) else None
  {
    hide After, LastStart, PruneCodes, PruneGuard, PruneEvents;
    var key := KeyFor(op.user, op.purpose, RequestOf(op).channel);
    LeftIsHistory(cfg, calls, op.user, op.purpose, RequestOf(op).channel, now);
    PrunedCooldown(cfg, After(cfg, calls), now, key);
  }

  // -- Claims ----------------------------------------------------------------------

  /** The allowance a day: `otp_max_sends_per_day`, or `password_reset_max_sends_per_day`. */
  function Allowance(cfg: Config, purpose: Purpose): int {
    if purpose == PasswordReset then cfg.resetDailySends else cfg.dailySends
  }

  /** What the first limit that is used up refuses with; `None` if none is. */
  function RefusedFor(cfg: Config, calls: seq<Call>, op: Operation, now: real): Option<Limit>
    requires op.Claim?
  {
    var since := now - cfg.window as real;
    if Cooling(cfg, LastStart(cfg, calls, op.user, op.purpose, op.channel), now) then Some(Cooldown)
    else if op.destination.Some? && AcceptedIn(cfg, calls, SentTo(op.channel, op.destination.value), since, now) >= cfg.perDestination then
      Some(DestinationWindow)
    else if op.address.Some? && AcceptedIn(cfg, calls, SentFrom(op.address.value), since, now) >= cfg.perAddress then Some(AddressWindow)
    else if AcceptedIn(cfg, calls, SentFor(op.user, op.purpose), now - 86400 as real, now) >= Allowance(cfg, op.purpose) then Some(DailyCap)
    else None
  }

  lemma WindowsAreHistory(cfg: Config, calls: seq<Call>, op: Operation, now: real)
    requires op.Claim? && Timed(calls) && Until(calls, now)
    ensures
      var l, since := Prune(cfg, After(cfg, calls), now).limits, now - cfg.window as real;
      && (DestinationRefusal(cfg, l, RequestOf(op), now).Some? <==>
            op.destination.Some? && AcceptedIn(cfg, calls, SentTo(op.channel, op.destination.value), since, now) >= cfg.perDestination)
      && (AddressRefusal(cfg, l, RequestOf(op), now).Some? <==>
            op.address.Some? && AcceptedIn(cfg, calls, SentFrom(op.address.value), since, now) >= cfg.perAddress)
  {
    hide After, Prune, WindowRefusal, AcceptedIn, SentTo, SentFrom;
    if op.destination.Some? {
      RoomIsCounted(cfg, calls, Destination(op.channel, op.destination.value), now);
    }
    if op.address.Some? {
      RoomIsCounted(cfg, calls, Sends(op.address.value), now);
    }
  }

  /** The daily allowances: a claim that nothing refuses before is refused by the day if and
      only if as many codes as the allowance for its kind of purpose were sent to the user in
      the last day; sends for the other kind do not count. */
  lemma DayIsHistory(cfg: Config, calls: seq<Call>, op: Operation, now: real)
    requires op.Claim? && Timed(calls) && Until(calls, now)
    ensures DailyRefusal(cfg, Prune(cfg, After(cfg, calls), now).limits, RequestOf(op))
      == if AcceptedIn(cfg, calls, SentFor(op.user, op.purpose), now - 86400 as real, now) >= Allowance(cfg, op.purpose)
         then Some(Refused(DailyCap, 86400)) else None
  {
    hide After, Prune, AcceptedIn;
    var group := if op.purpose == PasswordReset then RecoveryGroup else SignInGroup;
    RoomIsCounted(cfg, calls, Daily(group, op.user), now);
    SameSends(cfg, calls, op.user, op.purpose, now - 86400 as real, now);
  }

  /** Purposes of one kind are counted together. */
  lemma {:induction false} SameSends(cfg: Config, calls: seq<Call>, user: UserId, purpose: Purpose, from: real, to: real)
    ensures AcceptedIn(cfg, calls, SentFor(user, purpose), from, to)
      == AcceptedIn(cfg, calls, SentFor(user, if purpose == PasswordReset then PasswordReset else SignIn), from, to)
  {
    hide Step, IsAccepted;
    if calls != [] {
      SameSends(cfg, calls[..|calls| - 1], user, purpose, from, to);
    }
  }

  /** Every claim of every run is answered by the first limit that is used up: the cooldown of
      its channel, the window of its destination, the window of its client address, the user's
      daily allowance; and is issued if none is. The challenge it is issued holds the hash of
      its code, as many attempts as are configured, and expires after the configured lifetime. */
  lemma ClaimIsAnswered(cfg: Config, calls: seq<Call>, call: Call)
    requires call.op.Claim? && Timed(calls + [call])
    ensures
      var Outcome(state, answer) := Step(cfg, After(cfg, calls), call.op, call.at);
      match RefusedFor(cfg, calls, call.op, call.at)
      case Some(limit) => answer.Refused? && answer.limit == limit && (limit == DailyCap ==> answer.retryAfter == 86400)
      case None => (
        var Claim(id, code, user, purpose, channel, destination, _) := call.op;
        && answer == Issued(id) && id in state.codes.pending
        && state.codes.pending[id]
          == Challenge(user, purpose, Some(Mac(id, code)), call.at + cfg.codeTtl as real, cfg.maxAttempts, channel, destination))
  {
    hide After, Prune, AcceptedIn, SentTo, SentFrom, SentFor, LastStart, Recorded, Allowance;
    TimedBefore(calls, call);
    CooldownIsHistory(cfg, calls, call.op, call.at);
    WindowsAreHistory(cfg, calls, call.op, call.at);
    DayIsHistory(cfg, calls, call.op, call.at);
    FirstLimit(cfg, Prune(cfg, After(cfg, calls), call.at).limits, RequestOf(call.op), call.at);
    hide CooldownRefusal, DestinationRefusal, AddressRefusal, DailyRefusal;
  }

  lemma TimedBefore(calls: seq<Call>, call: Call)
    requires Timed(calls + [call])
    ensures Timed(calls) && Until(calls, call.at)
  {
    assert forall i :: 0 <= i < |calls| ==> (calls + [call])[i] == calls[i];
    assert (calls + [call])[|calls|] == call;
  }

  lemma FirstLimit(cfg: Config, l: Limits, r: Request, now: real)
    ensures DestinationRefusal(cfg, l, r, now).Some? ==>
      DestinationRefusal(cfg, l, r, now).value.Refused? && DestinationRefusal(cfg, l, r, now).value.limit == DestinationWindow
    ensures AddressRefusal(cfg, l, r, now).Some? ==>
      AddressRefusal(cfg, l, r, now).value.Refused? && AddressRefusal(cfg, l, r, now).value.limit == AddressWindow
  {
    hide WindowRefusal;
  }

  /** An authenticator challenge is refused while the user is locked, and one for signing in or
      recovery while its cooldown runs; nothing else refuses it, and enrolling one is refused
      by the lock alone. It has no hash, and a lifetime of its own if one is asked for. */
  lemma AuthenticatorIsAnswered(cfg: Config, calls: seq<Call>, call: Call)
    requires call.op.ClaimTotp? && Timed(calls + [call])
    ensures
      var Outcome(state, answer) := Step(cfg, After(cfg, calls), call.op, call.at);
      var ClaimTotp(id, user, purpose, ttl, throttled) := call.op;
      var lifetime := if ttl.Some? && ttl.value > 0 then ttl.value else cfg.codeTtl;
      var locked := LockLeft(After(cfg, calls), call.op.user, call.at) > 0.0;
      var cooling := Cooling(cfg, LastStart(cfg, calls, call.op.user, call.op.purpose, Totp), call.at);
      if locked then answer.Refused? && answer.limit == Lockout
      else if throttled && cooling then answer.Refused? && answer.limit == Cooldown
      else (
        && answer == Issued(id) && id in state.codes.pending
        && state.codes.pending[id] == Challenge(user, purpose, None, call.at + lifetime as real, cfg.maxAttempts, Totp, None))
  {
    hide After, LastStart, Recorded, PruneCodes, PruneLimits, WindowRefusal;
    TimedBefore(calls, call);
    CooldownIsHistory(cfg, calls, call.op, call.at);
    PrunedLock(cfg, After(cfg, calls), call.at, call.op.user);
    assert (calls + [call])[|calls|] == call;
    hide CooldownRefusal;
  }

  /** A recovery request is counted, and refused if and only if as many requests as the limit
      came from its address within the window; without an address it is not counted. */
  lemma RequestIsAnswered(cfg: Config, calls: seq<Call>, address: Option<Address>, now: real)
    requires Timed(calls + [Call(ReserveRequest(address), now)])
    ensures
      var answer := Step(cfg, After(cfg, calls), ReserveRequest(address), now).answer;
      if address.Some? && AcceptedIn(cfg, calls, RequestedFrom(address.value), now - cfg.window as real, now) >= cfg.perAddress
      then answer.Refused? && answer.limit == RequestWindow
      else answer == Accepted
  {
    hide After, Prune, WindowRefusal, AcceptedIn, RequestedFrom;
    TimedBefore(calls, Call(ReserveRequest(address), now));
    if address.Some? {
      RoomIsCounted(cfg, calls, Requests(address.value), now);
    }
  }

  // -- Codes -----------------------------------------------------------------------

  /** Every code that is entered is answered from the challenge it is entered for: an unknown
      or expired one, one for another purpose and a stranger's are gone; an authenticator's is
      not looked at while its user is locked; otherwise the validator decides if there is one,
      and the hash if not. */
  lemma CodeIsAnswered(cfg: Config, s: State, op: Operation, now: real)
    requires op.Verify? && now >= 0.0
    ensures
      var answer, live := Step(cfg, s, op, now).answer, s.codes.live;
      if !(op.id in live && live[op.id].expiresAt > now && live[op.id].purpose == op.purpose
           && (op.expectedUser.None? || op.expectedUser.value == live[op.id].user)) then answer == Gone
      else
        var c := live[op.id];
        if c.channel == Totp && LockLeft(s, c.user, now) > 0.0 then answer.Refused? && answer.limit == Lockout
        else match op.validator
          case Some(Raises) => answer == Unavailable
          case Some(Wrong) => answer == WrongCode
          case Some(Right) => answer == Verified(c)
          case None => answer == if c.digest == Some(Mac(op.id, op.code)) then Verified(c) else WrongCode
  {
    hide PruneLimits, FailureRecorded, AttemptSpent;
    PruneKeeps(cfg, s, now);
    if op.id in s.codes.live {
      PrunedLock(cfg, s, now, s.codes.live[op.id].user);
    }
  }
}
