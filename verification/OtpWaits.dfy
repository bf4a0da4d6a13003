/** What `Retry-After` promises for the limits that are not windows, over whole runs: the
    cooldown, the authenticator lock and the daily allowance. */
module OtpWaits {
  import opened Wrappers
  import opened Otp
  import opened OtpLifecycle
  import opened OtpWindows
  import opened OtpBudgets
  import opened OtpLockout

  // -- The cooldown ----------------------------------------------------------------

  /** How long a cooldown still runs; not positive when it does not. */
  function CooldownLeft(cfg: Config, s: State, key: (LimitGroup, UserId, Channel), now: real): real {
    if key in s.limits.lastSend then cfg.cooldown as real - (now - s.limits.lastSend[key]) else 0.0
  }

  function KeyOf(op: Operation): (LimitGroup, UserId, Channel)
    requires Mints(op)
  {
    (GroupOf(op.purpose), op.user, RequestOf(op).channel)
  }

  /** The cooldown check of a claim fails. */
  predicate OnCooldown(cfg: Config, s: State, op: Operation, now: real)
    requires Mints(op)
  {
    CooldownRefusal(cfg, Prune(cfg, s, now).limits, RequestOf(op), now).Some?
  }

  lemma CoolingIsLeft(cfg: Config, s: State, op: Operation, now: real)
    requires Mints(op)
    ensures OnCooldown(cfg, s, op, now) <==> CooldownLeft(cfg, s, KeyOf(op), now) > 0.0
  {
    hide PruneCodes, PruneGuard, PruneEvents;
    PrunedCooldown(cfg, s, now, KeyOf(op));
  }

  /** The wait that a cooldown states is the time it still runs, rounded down, and one. */
  lemma CooldownAnswer(cfg: Config, s: State, op: Operation, now: real)
    requires var answer := Step(cfg, s, op, now).answer; answer.Refused? && answer.limit == Cooldown
    ensures Mints(op) && CooldownLeft(cfg, s, KeyOf(op), now) > 0.0
    ensures Step(cfg, s, op, now).answer.retryAfter == CooldownLeft(cfg, s, KeyOf(op), now).Floor + 1
  {
    hide Prune, Minted, Recorded, WindowRefusal, Committed, DiscardStep, Judge, Lookup;
    if Mints(op) {
      PrunedCooldown(cfg, s, now, KeyOf(op));
    }
  }

  /** None of these calls spends the cooldown. */
  predicate Undrawn(cfg: Config, head: seq<Call>, more: seq<Call>, key: (LimitGroup, UserId, Channel)) {
    forall i :: 0 <= i < |more| ==> !Draws(more[i].op, Step(cfg, After(cfg, head + more[..i]), more[i].op, more[i].at).answer, key)
  }

  /** None of these calls gives the cooldown back. */
  predicate Unreleased(cfg: Config, head: seq<Call>, more: seq<Call>, key: (LimitGroup, UserId, Channel)) {
    forall i :: 0 <= i < |more| ==> !Releases(After(cfg, head + more[..i]), more[i].op, key)
  }

  lemma StepCooldown(cfg: Config, s: State, call: Call, key: (LimitGroup, UserId, Channel), now: real)
    requires call.at <= now && !Draws(call.op, Step(cfg, s, call.op, call.at).answer, key)
    ensures
      var left, after := CooldownLeft(cfg, s, key, now), CooldownLeft(cfg, Step(cfg, s, call.op, call.at).state, key, now);
      && (after == left || after <= 0.0)
      && (left > 0.0 && !Releases(s, call.op, key) ==> after == left)
  {
    hide PruneEvents, PruneCodes, PruneGuard, LockRefusal, DestinationRefusal, AddressRefusal, DailyRefusal, CooldownRefusal, WindowRefusal;
    hide Minted, Committed, Commits, Append, Push, Judge, FailureRecorded, Lookup, VerifyRefusal, AttemptSpent;
    PrunedCooldown(cfg, s, call.at, key);
    RefusalsRefuse(cfg, Prune(cfg, s, call.at), call.op, call.at);
  }

  lemma {:induction false} CooldownThrough(cfg: Config, head: seq<Call>, more: seq<Call>, key: (LimitGroup, UserId, Channel), now: real)
    requires Until(more, now) && Undrawn(cfg, head, more, key)
    ensures
      var left, after := CooldownLeft(cfg, After(cfg, head), key, now), CooldownLeft(cfg, After(cfg, head + more), key, now);
      && (after == left || after <= 0.0)
      && (left > 0.0 && Unreleased(cfg, head, more, key) ==> after == left)
  {
    hide Step, Draws, Releases, CooldownLeft;
    if more == [] {
      assert head + more == head;
    } else {
      var n := |more| - 1;
      var before := more[..n];
      assert forall i :: 0 <= i <= n ==> before[..i] == more[..i];
      assert (head + more)[..|head + more| - 1] == head + before;
      CooldownThrough(cfg, head, before, key, now);
      StepCooldown(cfg, After(cfg, head + before), more[n], key, now);
    }
  }

  /** The cooldown's wait: however the run goes on, while nothing else spends the cooldown its
      check passes once the stated wait is over, and while nothing gives it back either, it
      passes exactly when the time left at the refusal is over. So the wait is the first whole
      second that passes, except that it is one second too long when the time left was whole. */
  lemma CooldownWait(cfg: Config, calls: seq<Call>, refused: Call, more: seq<Call>, k: nat)
    requires var answer := Step(cfg, After(cfg, calls), refused.op, refused.at).answer; answer.Refused? && answer.limit == Cooldown
    requires Mints(refused.op) && Until(more, refused.at + k as real)
    requires Undrawn(cfg, calls + [refused], more, KeyOf(refused.op))
    ensures
      var wait := Step(cfg, After(cfg, calls), refused.op, refused.at).answer.retryAfter;
      var left := CooldownLeft(cfg, After(cfg, calls), KeyOf(refused.op), refused.at);
      var cooling := OnCooldown(cfg, After(cfg, calls + [refused] + more), refused.op, refused.at + k as real);
      && wait >= 1 && (k >= wait ==> !cooling)
      && (Unreleased(cfg, calls + [refused], more, KeyOf(refused.op)) ==>
            && (cooling <==> k as real < left)
            && (k < wait - 1 ==> cooling)
            && (k == wait - 1 ==> (!cooling <==> left == left.Floor as real)))
  {
    hide Step, OnCooldown, Undrawn, Unreleased;
    var s, key, now := After(cfg, calls), KeyOf(refused.op), refused.at + k as real;
    CooldownAnswer(cfg, s, refused.op, refused.at);
    assert (calls + [refused])[..|calls|] == calls;
    assert After(cfg, calls + [refused]) == Step(cfg, s, refused.op, refused.at).state;
    StepCooldown(cfg, s, refused, key, now);
    CooldownThrough(cfg, calls + [refused], more, key, now);
    CoolingIsLeft(cfg, After(cfg, calls + [refused] + more), refused.op, now);
  }

  // -- The lock --------------------------------------------------------------------

  /** How long the user's lock still holds; not positive when it does not. */
  function LockLeft(s: State, user: UserId, now: real): real {
    if user in s.guard.locks then s.guard.locks[user] - now else 0.0
  }

  /** The call was refused by the lock of this user. */
  predicate RefusedByLock(cfg: Config, s: State, call: Call, user: UserId) {
    var answer := Step(cfg, s, call.op, call.at).answer;
    && answer.Refused? && answer.limit == Lockout
    && (Mints(call.op) ==> call.op.user == user)
    && (call.op.Verify? ==> match Lookup(Prune(cfg, s, call.at).codes, call.op.id, call.op.purpose)
        case Some(c) => c.user == user
        case None => false)
  }

  lemma LockAnswer(cfg: Config, s: State, call: Call, user: UserId)
    requires RefusedByLock(cfg, s, call, user) && call.at >= 0.0
    ensures LockLeft(s, user, call.at) > 0.0
    ensures Step(cfg, s, call.op, call.at).answer.retryAfter == LockLeft(s, user, call.at).Floor + 1
    ensures !WrongTotp(cfg, s, call, user) && !Clears(cfg, s, call, user)
  {
    hide Prune, Minted, Recorded, WindowRefusal, Committed, DiscardStep, Judge, FailureRecorded, AttemptSpent;
    PrunedLock(cfg, s, call.at, user);
  }

  /** No wrong authenticator code of the user is judged during these calls. */
  predicate Faultless(cfg: Config, head: seq<Call>, more: seq<Call>, user: UserId) {
    forall i :: 0 <= i < |more| ==> !WrongTotp(cfg, After(cfg, head + more[..i]), more[i], user)
  }

  lemma StepLock(cfg: Config, s: State, call: Call, user: UserId, now: real)
    requires call.at <= now && !WrongTotp(cfg, s, call, user)
    ensures
      var left, after := LockLeft(s, user, now), LockLeft(Step(cfg, s, call.op, call.at).state, user, now);
      && (after == left || after <= 0.0)
      && (left > 0.0 && !Clears(cfg, s, call, user) ==> after == left)
  {
    hide Step, WrongTotp, Clears, Dropped;
    StepFailures(cfg, s, call, user);
  }

  lemma {:induction false} LockThrough(cfg: Config, head: seq<Call>, more: seq<Call>, user: UserId, now: real)
    requires Until(more, now) && Faultless(cfg, head, more, user)
    ensures
      var left, after := LockLeft(After(cfg, head), user, now), LockLeft(After(cfg, head + more), user, now);
      && (after == left || after <= 0.0)
      && (left > 0.0 && Uncleared(cfg, head, more, user) ==> after == left)
  {
    hide Step, WrongTotp, Clears, LockLeft;
    if more == [] {
      assert head + more == head;
    } else {
      var n := |more| - 1;
      var before := more[..n];
      assert forall i :: 0 <= i <= n ==> before[..i] == more[..i];
      assert (head + more)[..|head + more| - 1] == head + before;
      LockThrough(cfg, head, before, user, now);
      StepLock(cfg, After(cfg, head + before), more[n], user, now);
    }
  }

  /** The lock's wait: however the run goes on, while no wrong authenticator code of the user
      is judged the lock is open once the stated wait is over, and while nothing clears it
      either, it is open exactly when the time left at the refusal is over: the wait is the
      first whole second at which it is, or one second more when the time left was whole. */
  lemma LockWait(cfg: Config, calls: seq<Call>, refused: Call, more: seq<Call>, user: UserId, k: nat)
    requires RefusedByLock(cfg, After(cfg, calls), refused, user) && refused.at >= 0.0
    requires Until(more, refused.at + k as real) && Faultless(cfg, calls + [refused], more, user)
    ensures
      var wait := Step(cfg, After(cfg, calls), refused.op, refused.at).answer.retryAfter;
      var left := LockLeft(After(cfg, calls), user, refused.at);
      var locked := LockRefusal(After(cfg, calls + [refused] + more).guard, user, refused.at + k as real).Some?;
      && wait >= 1 && (k >= wait ==> !locked)
      && (Uncleared(cfg, calls + [refused], more, user) ==>
            && (locked <==> k as real < left)
            && (k < wait - 1 ==> locked)
            && (k == wait - 1 ==> (!locked <==> left == left.Floor as real)))
  {
    hide Step, RefusedByLock, WrongTotp, Clears, Faultless, Uncleared;
    var s, now := After(cfg, calls), refused.at + k as real;
    LockAnswer(cfg, s, refused, user);
    assert (calls + [refused])[..|calls|] == calls;
    assert After(cfg, calls + [refused]) == Step(cfg, s, refused.op, refused.at).state;
    StepLock(cfg, s, refused, user, now);
    LockThrough(cfg, calls + [refused], more, user, now);
  }

  // -- The daily allowance ---------------------------------------------------------

  /** The call was refused by this user's daily allowance. */
  predicate RefusedByDay(op: Operation, answer: Answer, c: Counter) {
    op.Claim? && answer.Refused? && answer.limit == DailyCap && c == Daily(GroupOf(op.purpose), op.user)
  }

  lemma DayAnswer(cfg: Config, s: State, op: Operation, now: real, c: Counter)
    requires RefusedByDay(op, Step(cfg, s, op, now).answer, c)
    ensures Step(cfg, s, op, now).answer.retryAfter == DAY
  {
    hide Prune, Minted, Recorded, WindowRefusal;
  }

  /** The daily wait is a whole day whatever the sends were: while nothing else is counted it
      is enough if and only if not the whole allowance was used up at the very moment of the
      refusal. */
  lemma DailyWait(cfg: Config, calls: seq<Call>, refused: Call, more: seq<Call>, c: Counter)
    requires Timed(calls) && Until(calls, refused.at)
    requires RefusedByDay(refused.op, Step(cfg, After(cfg, calls), refused.op, refused.at).answer, c)
    requires var later := refused.at + Step(cfg, After(cfg, calls), refused.op, refused.at).answer.retryAfter as real;
      Timed(calls + [refused] + more) && Until(calls + [refused] + more, later)
    requires History(cfg, calls + [refused] + more, c) == History(cfg, calls, c)
    ensures
      var later := refused.at + Step(cfg, After(cfg, calls), refused.op, refused.at).answer.retryAfter as real;
      HasRoom(cfg, Dropped(Stored(After(cfg, calls + [refused] + more).limits, c), later - DAY as real), later, c)
      <==> Within(History(cfg, calls, c), refused.at, refused.at) < Cap(cfg, c)
  {
    hide Step, Stored, Dropped, HasRoom, History, Within;
    DayAnswer(cfg, After(cfg, calls), refused.op, refused.at, c);
    var later := refused.at + DAY as real;
    RoomExactly(cfg, calls + [refused] + more, c, later);
    HistoryUntil(cfg, calls, c, refused.at);
    WithinLater(History(cfg, calls, c), refused.at, refused.at, later);
  }

  lemma {:induction false} WithinLater(q: seq<real>, from: real, now: real, later: real)
    requires now <= later && forall i :: 0 <= i < |q| ==> q[i] <= now
    ensures Within(q, from, later) == Within(q, from, now)
  {
    if q != [] {
      WithinLater(q[..|q| - 1], from, now, later);
    }
  }
}
