/** The store as the program keeps it: dictionaries updated in place, refining the pure
    machine of `Otp` call by call. */
module OtpService {
  import opened Wrappers
  import opened Otp

  // -- Pruning loops ---------------------------------------------------------------

  /** Deleting the entries that fail a test, found by one scan of the dictionary. */
  method DeleteUnless<K(==), V>(store: map<K, V>, keep: V -> bool) returns (kept: map<K, V>)
    ensures kept == Kept(store, keep)
  {
    kept := store;
    var keys := store.Keys;
    while keys != {}
      invariant keys <= store.Keys
      invariant kept == map k | k in store && (k in keys || keep(store[k])) :: store[k]
    {
      var key :| key in keys;
      if !keep(store[key]) {
        kept := kept - {key};
      }
      keys := keys - {key};
    }
  }

  method PopOld(events: seq<real>, cutoff: real) returns (left: seq<real>)
    ensures left == Dropped(events, cutoff)
  {
    left := events;
    while left != [] && left[0] < cutoff
      invariant Dropped(left, cutoff) == Dropped(events, cutoff)
    {
      left := left[1..];
    }
  }

  /** `_prune_window`, and the same loop over the daily history and the failures. */
  method PruneWindow<K(==)>(store: map<K, seq<real>>, cutoff: real) returns (kept: map<K, seq<real>>)
    ensures kept == PruneEvents(store, cutoff)
  {
    kept := store;
    var keys := store.Keys;
    while keys != {}
      invariant keys <= store.Keys
      invariant kept.Keys == set k | k in store && (k in keys || Dropped(store[k], cutoff) != [])
      invariant forall k :: k in kept ==> kept[k] == if k in keys then store[k] else Dropped(store[k], cutoff)
    {
      var key :| key in keys;
      var left := PopOld(store[key], cutoff);
      kept := if left == [] then kept - {key} else kept[key := left];
      keys := keys - {key};
    }
  }

  /** The events that are not older than the cutoff, in their order. */
  method RecentEvents(events: seq<real>, cutoff: real) returns (recent: seq<real>)
    ensures recent == Since(events, cutoff)
  {
    recent := [];
    for i := 0 to |events|
      invariant recent == Since(events[..i], cutoff)
    {
      assert events[..i + 1][..i] == events[..i];
      if events[i] >= cutoff {
        recent := recent + [events[i]];
      }
    }
    assert events[..|events|] == events;
  }

  // -- The service -----------------------------------------------------------------

  class OtpService {
    const cfg: Config
    var challenges: map<ChallengeId, Challenge>
    var pending: map<ChallengeId, Challenge>
    var lastSend: map<(LimitGroup, UserId, Channel), real>
    var sends: map<(LimitGroup, UserId), seq<real>>
    var destinationSends: map<(Channel, Address), seq<real>>
    var addressSends: map<Address, seq<real>>
    var addressRequests: map<Address, seq<real>>
    var failures: map<UserId, seq<real>>
    var locks: map<UserId, real>

    function Snapshot(): State
      reads this
    {
      State(Codes(challenges, pending), LimitsNow(), Guard(failures, locks))
    }

    function LimitsNow(): Limits
      reads this
    {
      Limits(lastSend, sends, destinationSends, addressSends, addressRequests)
    }

    constructor (settings: Config)
      ensures cfg == settings && Snapshot() == EMPTY
    {
      cfg := settings;
      challenges, pending, lastSend, sends := map[], map[], map[], map[];
      destinationSends, addressSends, addressRequests, failures, locks := map[], map[], map[], map[], map[];
    }

    method PruneAll(now: real)
      modifies this
      ensures Snapshot() == Prune(cfg, old(Snapshot()), now)
    {
      hide Kept, PruneEvents;
      PruneChallenges(now);
      PruneHistory(now);
      PruneGuards(now);
    }

    method PruneChallenges(now: real)
      modifies this`challenges, this`pending
      ensures Codes(challenges, pending) == PruneCodes(old(Codes(challenges, pending)), now)
    {
      challenges := DeleteUnless(challenges, Valid(now));
      pending := DeleteUnless(pending, Valid(now));
    }

    method PruneHistory(now: real)
      modifies this`sends, this`destinationSends, this`addressSends, this`addressRequests
      ensures var cutoff := now - cfg.window as real;
        && sends == PruneEvents(old(sends), now - DAY as real)
        && destinationSends == PruneEvents(old(destinationSends), cutoff)
        && addressSends == PruneEvents(old(addressSends), cutoff)
        && addressRequests == PruneEvents(old(addressRequests), cutoff)
    {
      sends := PruneWindow(sends, now - DAY as real);
      var cutoff := now - cfg.window as real;
      destinationSends := PruneWindow(destinationSends, cutoff);
      addressSends := PruneWindow(addressSends, cutoff);
      addressRequests := PruneWindow(addressRequests, cutoff);
    }

    method PruneGuards(now: real)
      modifies this`failures, this`locks, this`lastSend
      ensures Guard(failures, locks) == PruneGuard(cfg, old(Guard(failures, locks)), now)
      ensures lastSend == Kept(old(lastSend), Cooling(cfg.cooldown, now))
    {
      failures := PruneWindow(failures, now - cfg.window as real);
      locks := DeleteUnless(locks, Holding(now));
      lastSend := DeleteUnless(lastSend, Cooling(cfg.cooldown, now));
    }

    /** Every check runs before anything is recorded. */
    method Reserve(r: Request, now: real) returns (refusal: Option<Answer>)
      modifies this
      ensures
        var pruned := Prune(cfg, old(Snapshot()), now);
        refusal == Refusal(cfg, pruned.limits, r, now)
        && Snapshot() == if refusal.Some? then pruned else pruned.(limits := Recorded(cfg, pruned.limits, r, now))
    {
      hide PruneLimits, PruneCodes, PruneGuard, DestinationRefusal, AddressRefusal, Recorded;
      PruneAll(now);
      var group := if r.purpose == PasswordReset then RecoveryGroup else SignInGroup;
      refusal := CheckCooldown((group, r.user, r.channel), now);
      if refusal.Some? {
        return;
      }
      refusal := CheckWindows(r, now);
      if refusal.Some? {
        return;
      }
      var cap := if group == RecoveryGroup then cfg.resetDailySends else cfg.dailySends;
      if r.sendsMessage {
        if |Events(sends, (group, r.user))| >= cap {
          return Some(Refused(DailyCap, DAY));
        }
      }
      RecordClaim(r, group, if cap > MAX_DAILY_HISTORY then cap else MAX_DAILY_HISTORY, now);
    }

    method CheckCooldown(key: (LimitGroup, UserId, Channel), now: real) returns (refusal: Option<Answer>)
      ensures refusal ==
        if key in lastSend && now - lastSend[key] < cfg.cooldown as real
        then Some(Refused(Cooldown, (cfg.cooldown as real - (now - lastSend[key])).Floor + 1)) else None
    {
      if key in lastSend {
        var elapsed := now - lastSend[key];
        if elapsed < cfg.cooldown as real {
          return Some(Refused(Cooldown, (cfg.cooldown as real - elapsed).Floor + 1));
        }
      }
      return None;
    }

    /** Every limit has passed: the claim is recorded at each of them. */
    method RecordClaim(r: Request, group: LimitGroup, capacity: nat, now: real)
      requires group == GroupOf(r.purpose) && capacity == DailyCapacity(cfg, group)
      modifies this`lastSend, this`sends, this`destinationSends, this`addressSends
      ensures LimitsNow() == Recorded(cfg, old(LimitsNow()), r, now)
    {
      lastSend := lastSend[(group, r.user, r.channel) := now];
      if r.sendsMessage {
        sends := sends[(group, r.user) := Push(Events(sends, (group, r.user)), now, capacity)];
      }
      if r.destination.Some? {
        var key := (r.channel, r.destination.value);
        destinationSends := destinationSends[key := Events(destinationSends, key) + [now]];
      }
      if r.address.Some? {
        var key := r.address.value;
        addressSends := addressSends[key := Events(addressSends, key) + [now]];
      }
    }

    /** `_check_window`: the recent events are filtered out, and the oldest of them says how
        long to wait. */
    method CheckWindow(events: seq<real>, limit: int, now: real) returns (wait: Option<int>)
      requires limit >= 1
      ensures wait == WindowRefusal(events, limit, cfg.window, now)
    {
      var recent := RecentEvents(events, now - cfg.window as real);
      hide Since;
      if |recent| < limit {
        return None;
      }
      var oldest := recent[0];
      for i := 1 to |recent|
        invariant oldest in recent && forall j :: 0 <= j < i ==> oldest <= recent[j]
      {
        if recent[i] < oldest {
          oldest := recent[i];
        }
      }
      return Some((oldest + cfg.window as real - now).Floor + 1);
    }

    method CheckWindows(r: Request, now: real) returns (refusal: Option<Answer>)
      ensures refusal == if DestinationRefusal(cfg, LimitsNow(), r, now).Some? then DestinationRefusal(cfg, LimitsNow(), r, now)
        else AddressRefusal(cfg, LimitsNow(), r, now)
    {
      if r.destination.Some? {
        var wait := CheckWindow(Events(destinationSends, (r.channel, r.destination.value)), cfg.perDestination, now);
        if wait.Some? {
          return Some(Refused(DestinationWindow, wait.value));
        }
      }
      if r.address.Some? {
        var wait := CheckWindow(Events(addressSends, r.address.value), cfg.perAddress, now);
        if wait.Some? {
          return Some(Refused(AddressWindow, wait.value));
        }
      }
      return None;
    }

    method ClaimCode(op: Operation, now: real) returns (answer: Answer)
      requires op.Claim?
      modifies this
      ensures Outcome(Snapshot(), answer) == Step(cfg, old(Snapshot()), op, now)
    {
      var refusal := Reserve(Request(op.user, op.channel, op.purpose, op.destination, op.address, true), now);
      if refusal.Some? {
        return refusal.value;
      }
      pending := pending[op.id :=
        Challenge(op.user, op.purpose, Some(Mac(op.id, op.code)), now + cfg.codeTtl as real, cfg.maxAttempts, op.channel, op.destination)];
      return Issued(op.id);
    }

    method RequireUnlocked(user: UserId, now: real) returns (refusal: Option<Answer>)
      ensures refusal == LockRefusal(Guard(failures, locks), user, now)
    {
      var lockedUntil := if user in locks then locks[user] else 0.0;
      var remaining := lockedUntil - now;
      if remaining > 0.0 {
        return Some(Refused(Lockout, remaining.Floor + 1));
      }
      return None;
    }

    method ClaimAuthenticator(op: Operation, now: real) returns (answer: Answer)
      requires op.ClaimTotp?
      modifies this
      ensures Outcome(Snapshot(), answer) == Step(cfg, old(Snapshot()), op, now)
    {
      ghost var before := Snapshot();
      PruneAll(now);
      var locked := RequireUnlocked(op.user, now);
      if locked.Some? {
        return locked.value;
      }
      if op.throttled {
        var refusal := Reserve(Request(op.user, Totp, op.purpose, None, None, false), now);
        PruneTwice(cfg, before, now);
        if refusal.Some? {
          return refusal.value;
        }
      }
      var ttl := if op.ttl.Some? && op.ttl.value != 0 then op.ttl.value else cfg.codeTtl;
      pending := pending[op.id := Challenge(op.user, op.purpose, None, now + ttl as real, cfg.maxAttempts, Totp, None)];
      return Issued(op.id);
    }

    method ClearUserChallenges(user: UserId, purpose: Option<Purpose>)
      modifies this`challenges
      ensures challenges == ClearUser(old(challenges), user, purpose)
    {
      challenges := DeleteUnless(challenges, OtherThan(user, purpose));
    }

    method CommitChallenge(id: ChallengeId, supersedes: Option<ChallengeId>, now: real) returns (answer: Answer)
      modifies this
      ensures Outcome(Snapshot(), answer) == Step(cfg, old(Snapshot()), Commit(id, supersedes), now)
    {
      var claimed := if id in pending then Some(pending[id]) else None;
      pending := pending - {id};
      if claimed.None? || (supersedes.Some? && supersedes.value !in challenges) {
        return Gone;
      }
      ClearUserChallenges(claimed.value.user, Some(claimed.value.purpose));
      challenges := challenges[id := claimed.value];
      return Accepted;
    }

    method DiscardChallenge(id: ChallengeId, user: UserId, now: real)
      modifies this
      ensures Outcome(Snapshot(), Accepted) == Step(cfg, old(Snapshot()), Discard(id, user), now)
    {
      if id !in pending && id !in challenges {
        return;
      }
      var found := if id in pending then pending[id] else challenges[id];
      if found.user != user {
        return;
      }
      pending := pending - {id};
      challenges := challenges - {id};
      var group := if found.purpose == PasswordReset then RecoveryGroup else SignInGroup;
      lastSend := lastSend - {(group, user, found.channel)};
    }

    method ReadLive(id: ChallengeId, purpose: Purpose, now: real) returns (answer: Answer)
      modifies this
      ensures Outcome(Snapshot(), answer) == Step(cfg, old(Snapshot()), RequireLive(id, purpose), now)
    {
      PruneAll(now);
      if id !in challenges || challenges[id].purpose != purpose {
        return Gone;
      }
      return Live(challenges[id]);
    }

    method RecordTotpFailure(user: UserId, now: real)
      modifies this`failures, this`locks
      ensures Guard(failures, locks) == FailureRecorded(cfg, old(Guard(failures, locks)), user, now)
    {
      var recorded := Events(failures, user) + [now];
      failures := failures[user := recorded];
      if |recorded| >= cfg.maxAttempts {
        locks := locks[user := now + cfg.lockout as real];
      }
    }

    method VerifyCode(op: Operation, now: real) returns (answer: Answer)
      requires op.Verify?
      modifies this
      ensures Outcome(Snapshot(), answer) == Step(cfg, old(Snapshot()), op, now)
    {
      PruneAll(now);
      var id := op.id;
      if id !in challenges || challenges[id].purpose != op.purpose {
        return Gone;
      }
      var c := challenges[id];
      if op.expectedUser.Some? && c.user != op.expectedUser.value {
        return Gone;
      }
      if c.channel == Totp {
        var locked := RequireUnlocked(c.user, now);
        if locked.Some? {
          return locked.value;
        }
      }
      var verdict := Wrong;
      if c.digest.None? || op.validator.Some? {
        if op.validator.Some? {
          verdict := op.validator.value;
        }
      } else if c.digest.value == Mac(id, op.code) {
        verdict := Right;
      }
      if verdict == Raises {
        return Unavailable;
      }
      if verdict == Wrong {
        Reject(id, c, now);
        return WrongCode;
      }
      challenges := challenges - {id};
      if c.channel == Totp {
        failures := failures - {c.user};
      }
      return Verified(c);
    }

    method Reject(id: ChallengeId, c: Challenge, now: real)
      requires id in challenges && challenges[id] == c
      modifies this
      ensures Snapshot() == AfterWrong(cfg, old(Snapshot()), id, c, now)
    {
      var left := c.attemptsLeft - 1;
      ghost var before := challenges;
      challenges := challenges[id := c.(attemptsLeft := left)];
      if c.channel == Totp {
        RecordTotpFailure(c.user, now);
      }
      if left <= 0 {
        challenges := challenges - {id};
        assert challenges == before - {id};
      }
    }

    method ReserveRequestSlot(address: Option<Address>, now: real) returns (answer: Answer)
      modifies this
      ensures Outcome(Snapshot(), answer) == Step(cfg, old(Snapshot()), ReserveRequest(address), now)
    {
      hide PruneCodes, PruneGuard, PruneEvents, Kept, WindowRefusal;
      if address.None? {
        return Accepted;
      }
      PruneAll(now);
      var wait := CheckWindow(Events(addressRequests, address.value), cfg.perAddress, now);
      if wait.Some? {
        return Refused(RequestWindow, wait.value);
      }
      addressRequests := addressRequests[address.value := Events(addressRequests, address.value) + [now]];
      return Accepted;
    }

    method InvalidateUser(user: UserId, now: real)
      modifies this
      ensures Outcome(Snapshot(), Accepted) == Step(cfg, old(Snapshot()), Invalidate(user), now)
    {
      ClearUserChallenges(user, None);
      failures := failures - {user};
      locks := locks - {user};
    }
  }
}
