/** The authenticator lock over whole runs: how many wrong codes can be tried against one
    account in a stretch of time, whatever challenges and purposes they are tried under. */
module OtpLockout {
  import opened Wrappers
  import opened Otp
  import opened OtpWindows
  import opened OtpLifecycle

  // -- What is counted -------------------------------------------------------------

  /** The call judged an authenticator code of the user, and found it wrong. */
  predicate WrongTotp(cfg: Config, s: State, call: Call, user: UserId) {
    call.op.Verify? && Step(cfg, s, call.op, call.at).answer == WrongCode
    && match Lookup(Prune(cfg, s, call.at).codes, call.op.id, call.op.purpose)
       case Some(c) => c.channel == Totp && c.user == user
       case None => false
  }

  /** The call clears the user's failures: a right authenticator code, or two-step
      verification turned off. */
  predicate Clears(cfg: Config, s: State, call: Call, user: UserId) {
    call.op == Invalidate(user)
    || match Step(cfg, s, call.op, call.at).answer
       case Verified(c) => c.channel == Totp && c.user == user
       case _ => false
  }

  /** The wrong authenticator codes of the user during `tail`, a run that continues `head`. */
  function WrongCodes(cfg: Config, head: seq<Call>, tail: seq<Call>, user: UserId): (n: nat)
    ensures n <= |tail|
  {
    if tail == [] then 0
    else
      var n := |tail| - 1;
      WrongCodes(cfg, head, tail[..n], user) + if WrongTotp(cfg, After(cfg, head + tail[..n]), tail[n], user) then 1 else 0
  }

  predicate Uncleared(cfg: Config, head: seq<Call>, tail: seq<Call>, user: UserId) {
    forall i :: 0 <= i < |tail| ==> !Clears(cfg, After(cfg, head + tail[..i]), tail[i], user)
  }

  predicate During(tail: seq<Call>, from: real, to: real) {
    forall i :: 0 <= i < |tail| ==> from <= tail[i].at <= to
  }

  // -- One call --------------------------------------------------------------------

  /** What one call does to the queue of failures and to the lock of a user. */
  ghost predicate FailureStep(cfg: Config, g: Guard, after: Guard, wrong: bool, cleared: bool, now: real, user: UserId) {
    var q, left := Events(g.failures, user), Dropped(Events(g.failures, user), now - cfg.window as real);
    if wrong then
      && (user in g.locks ==> g.locks[user] <= now)
      && Events(after.failures, user) == left + [now]
      && (user in after.locks <==> |left| + 1 >= cfg.maxAttempts)
      && (user in after.locks ==> after.locks[user] == now + cfg.lockout as real)
    else
      && (if cleared then Events(after.failures, user) == [] else Events(after.failures, user) in [q, left])
      && (user in after.locks ==> user in g.locks && after.locks[user] == g.locks[user])
      && (!cleared && user in g.locks && g.locks[user] > now ==> user in after.locks)
  }

  lemma StepFailures(cfg: Config, s: State, call: Call, user: UserId)
    ensures FailureStep(cfg, s.guard, Step(cfg, s, call.op, call.at).state.guard, WrongTotp(cfg, s, call, user),
                        Clears(cfg, s, call, user), call.at, user)
  {
    hide Prune, VerifyStep, Committed, ClaimRefusal, Recorded, Dropped;
    PrunedFailures(cfg, s, call.at, user);
    PrunedLock(cfg, s, call.at, user);
    RefusalsRefuse(cfg, Prune(cfg, s, call.at), call.op, call.at);
    match call.op
    case Verify(_, _, _, _, _) => VerifyFailures(cfg, s, call, user);
    case Invalidate(other) =>
      hide Events;
      OthersEvents(s.guard.failures, other, user);
      NoEvents(s.guard.failures, user);
    case _ =>
  }

  lemma PrunedFailures(cfg: Config, s: State, now: real, user: UserId)
    ensures Events(Prune(cfg, s, now).guard.failures, user) == Dropped(Events(s.guard.failures, user), now - cfg.window as real)
  {
    hide PruneCodes, PruneLimits;
  }

  lemma NoEvents(failures: map<UserId, seq<real>>, user: UserId)
    ensures Events(failures - {user}, user) == []
  {
  }

  lemma RecordedFailure(cfg: Config, g: Guard, user: UserId, now: real, other: UserId)
    ensures var after := FailureRecorded(cfg, g, user, now);
      && Events(after.failures, user) == Events(g.failures, user) + [now]
      && (|Events(g.failures, user)| + 1 >= cfg.maxAttempts ==> user in after.locks && after.locks[user] == now + cfg.lockout as real)
      && (|Events(g.failures, user)| + 1 < cfg.maxAttempts ==> after.locks == g.locks)
      && (other != user ==> Events(after.failures, other) == Events(g.failures, other))
      && (other != user ==> (other in after.locks <==> other in g.locks))
      && (other != user && other in g.locks ==> after.locks[other] == g.locks[other])
  {
  }

  lemma VerifyFailures(cfg: Config, s: State, call: Call, user: UserId)
    requires call.op.Verify?
    ensures FailureStep(cfg, s.guard, Step(cfg, s, call.op, call.at).state.guard, WrongTotp(cfg, s, call, user),
                        Clears(cfg, s, call, user), call.at, user)
  {
    hide Prune, FailureRecorded, AttemptSpent, Judge, Events, Dropped;
    var p := Prune(cfg, s, call.at);
    PrunedFailures(cfg, s, call.at, user);
    PrunedLock(cfg, s, call.at, user);
    if VerifyRefusal(p, call.op, call.at).None? {
      var c := p.codes.live[call.op.id];
      RecordedFailure(cfg, p.guard, c.user, call.at, user);
      OthersEvents(p.guard.failures, c.user, user);
      NoEvents(p.guard.failures, c.user);
    }
  }

  lemma PrunedLock(cfg: Config, s: State, now: real, user: UserId)
    ensures user in Prune(cfg, s, now).guard.locks <==> user in s.guard.locks && s.guard.locks[user] > now
    ensures user in Prune(cfg, s, now).guard.locks ==> Prune(cfg, s, now).guard.locks[user] == s.guard.locks[user]
  {
  }

  lemma OthersEvents(failures: map<UserId, seq<real>>, gone: UserId, user: UserId)
    ensures gone != user ==> Events(failures - {gone}, user) == Events(failures, user)
  {
  }

  // -- The bound -------------------------------------------------------------------

  /** The failures still counted at any moment of an interval that begins at `from`. */
  function Counted(g: Guard, user: UserId, from: real): nat {
    |Since(Events(g.failures, user), from)|
  }

  predicate LockedUntil(g: Guard, user: UserId, until: real) {
    user in g.locks && g.locks[user] >= until
  }

  /** The same call, seen from an interval that has no room for the window to slide past. */
  lemma CountedStep(cfg: Config, g: Guard, after: Guard, wrong: bool, now: real, user: UserId, from: real)
    requires FailureStep(cfg, g, after, wrong, false, now, user) && from <= now <= from + cfg.window as real
    ensures
      if wrong then (
        && Counted(after, user, from) == Counted(g, user, from) + 1
        && (Counted(after, user, from) >= cfg.maxAttempts ==> LockedUntil(after, user, now + cfg.lockout as real)))
      else Counted(after, user, from) == Counted(g, user, from)
  {
    hide Since, Dropped, Events;
    var q, early := Events(g.failures, user), now - cfg.window as real;
    SinceDropped(q, early, from);
    SinceAppend(Dropped(q, early), now, from);
  }

  /** The first moment after the lock that `n` failures since `from` have earned. */
  function Earned(cfg: Config, n: int, from: real): real {
    from + ((n - cfg.maxAttempts + 1) * cfg.lockout) as real
  }

  lemma OneMore(cfg: Config, n: int, from: real)
    ensures Earned(cfg, n + 1, from) == Earned(cfg, n, from) + cfg.lockout as real
  {
    assert (n + 1 - cfg.maxAttempts + 1) * cfg.lockout == (n - cfg.maxAttempts + 1) * cfg.lockout + cfg.lockout;
  }

  /** `n` failures since `from`, the last call having come at `last`: they are all still
      counted, and from the threshold on each has cost a whole lockout. */
  ghost predicate AddsUp(cfg: Config, n: int, g: Guard, user: UserId, last: real, from: real) {
    && n <= Counted(g, user, from)
    && (n >= cfg.maxAttempts ==> LockedUntil(g, user, Earned(cfg, n, from)) || Earned(cfg, n, from) <= last)
    && (n > cfg.maxAttempts ==> Earned(cfg, n - 1, from) <= last)
  }

  lemma AddsUpStep(cfg: Config, n: int, g: Guard, after: Guard, wrong: bool, user: UserId, last: real, now: real, from: real)
    requires AddsUp(cfg, n, g, user, last, from) && FailureStep(cfg, g, after, wrong, false, now, user)
    requires from <= now <= from + cfg.window as real && last <= now
    ensures AddsUp(cfg, if wrong then n + 1 else n, after, user, now, from)
  {
    hide Counted, Earned, FailureStep;
    CountedStep(cfg, g, after, wrong, now, user, from);
    if LockedUntil(g, user, Earned(cfg, n, from)) {
      LockStep(cfg, g, after, wrong, now, user, Earned(cfg, n, from));
    }
    OneMore(cfg, n, from);
    OneMore(cfg, n - 1, from);
    AtThreshold(cfg, from);
  }

  /** A wrong code is judged only when the lock is over; nothing else shortens a lock. */
  lemma LockStep(cfg: Config, g: Guard, after: Guard, wrong: bool, now: real, user: UserId, until: real)
    requires FailureStep(cfg, g, after, wrong, false, now, user) && LockedUntil(g, user, until)
    ensures until <= now || (!wrong && LockedUntil(after, user, until))
  {
    hide Dropped, Events;
  }

  function LastTime(tail: seq<Call>, from: real): real {
    if tail == [] then from else tail[|tail| - 1].at
  }

  /** From the threshold on, every further failure pushes the next one a lockout away. */
  lemma {:induction false} LocksAddUp(cfg: Config, head: seq<Call>, tail: seq<Call>, user: UserId, from: real)
    requires Timed(head + tail) && During(tail, from, from + cfg.window as real) && Uncleared(cfg, head, tail, user)
    ensures AddsUp(cfg, WrongCodes(cfg, head, tail, user), After(cfg, head + tail).guard, user, LastTime(tail, from), from)
  {
    hide Step, WrongTotp, Clears, AddsUp, FailureStep, Timed;
    if tail == [] {
      NothingAddsUp(cfg, After(cfg, head + tail).guard, user, from);
    } else {
      var m := |tail| - 1;
      var before, call := tail[..m], tail[m];
      Shorter(head, tail);
      UnclearedShorter(cfg, head, tail, user);
      LocksAddUp(cfg, head, before, user, from);
      StepFailures(cfg, After(cfg, head + before), call, user);
      AddsUpStep(cfg, WrongCodes(cfg, head, before, user), After(cfg, head + before).guard, After(cfg, head + tail).guard,
                 WrongTotp(cfg, After(cfg, head + before), call, user), user, LastTime(before, from), call.at, from);
    }
  }

  lemma UnclearedShorter(cfg: Config, head: seq<Call>, tail: seq<Call>, user: UserId)
    requires tail != [] && Uncleared(cfg, head, tail, user)
    ensures Uncleared(cfg, head, tail[..|tail| - 1], user) && !Clears(cfg, After(cfg, head + tail[..|tail| - 1]), tail[|tail| - 1], user)
  {
    hide Clears, After;
    assert forall i :: 0 <= i < |tail| - 1 ==> tail[..|tail| - 1][..i] == tail[..i];
  }

  lemma NothingAddsUp(cfg: Config, g: Guard, user: UserId, from: real)
    ensures AddsUp(cfg, 0, g, user, from, from)
  {
  }

  lemma AtThreshold(cfg: Config, from: real)
    ensures Earned(cfg, cfg.maxAttempts, from) == from + cfg.lockout as real
  {
  }

  lemma Shorter(head: seq<Call>, tail: seq<Call>)
    requires tail != [] && Timed(head + tail)
    ensures
      var m := |tail| - 1;
      (head + tail)[..|head + tail| - 1] == head + tail[..m] && (head + tail)[|head + tail| - 1] == tail[m] && Timed(head + tail[..m])
    ensures forall i :: 0 <= i < |tail| - 1 ==> tail[i].at <= tail[|tail| - 1].at
  {
    var all := head + tail;
    assert all[..|all| - 1] == head + tail[..|tail| - 1];
    assert forall i :: 0 <= i < |tail| ==> all[|head| + i] == tail[i];
  }

  /** Guessing an authenticator: in any closed interval of the rate window's length in which
      the user neither succeeds nor turns two-step verification off, at most
      `maxAttempts + window / lockout` wrong codes are judged, whatever was tried before
      and however many challenges are open. */
  lemma GrindingBound(cfg: Config, head: seq<Call>, tail: seq<Call>, user: UserId, from: real)
    requires cfg.lockout > 0
    requires Timed(head + tail) && During(tail, from, from + cfg.window as real) && Uncleared(cfg, head, tail, user)
    ensures WrongCodes(cfg, head, tail, user) <= cfg.maxAttempts + cfg.window / cfg.lockout
  {
    hide After, WrongCodes, Uncleared, Timed, Counted;
    LocksAddUp(cfg, head, tail, user, from);
    var over := WrongCodes(cfg, head, tail, user) - cfg.maxAttempts;
    if over > 0 {
      assert Earned(cfg, cfg.maxAttempts + over - 1, from) == from + (over * cfg.lockout) as real;
      AtMost(over, cfg.lockout, cfg.window);
    }
  }

  lemma AtMost(k: int, d: int, w: int)
    requires d > 0 && k * d <= w
    ensures k <= w / d
  {
    var q, x := w / d, k - w / d;
    assert w == q * d + w % d;
    assert x * d == k * d - q * d;
    Grows(x, d);
  }

  lemma Grows(x: int, d: int)
    requires d > 0
    ensures x <= 0 || x * d >= d
  {
    if x > 0 {
      assert x * d == d + (x - 1) * d;
    }
  }

  // -- When the lock falls ---------------------------------------------------------

  /** The user's wrong authenticator codes since they were last cleared, none forgotten. */
  function Failures(cfg: Config, calls: seq<Call>, user: UserId): seq<real> {
    if calls == [] then []
    else
      var n := |calls| - 1;
      var s, last := After(cfg, calls[..n]), calls[n];
      if Clears(cfg, s, last, user) then []
      else Failures(cfg, calls[..n], user) + if WrongTotp(cfg, s, last, user) then [last.at] else []
  }

  /** The stored failures are exactly the recent ones of the whole history. */
  lemma {:induction false} StoredFailures(cfg: Config, calls: seq<Call>, user: UserId, now: real)
    requires Timed(calls) && Until(calls, now)
    ensures
      var q, cutoff := Events(After(cfg, calls).guard.failures, user), now - cfg.window as real;
      Ordered(q, now) && Since(q, cutoff) == Since(Failures(cfg, calls, user), cutoff)
  {
    hide Step, Events, Ordered, Since, Dropped, WrongTotp, Clears;
    if calls == [] {
      NothingFailed(user, now);
    } else {
      var n := |calls| - 1;
      var before, last := calls[..n], calls[n];
      var s, h := After(cfg, before), Failures(cfg, before, user);
      StoredFailures(cfg, before, user, last.at);
      StoredFailures(cfg, before, user, now);
      StepFailures(cfg, s, last, user);
      LaterRecent(Events(s.guard.failures, user), h, last.at - cfg.window as real, last.at, now - cfg.window as real, now);
      NothingFailed(user, now);
      ClearsIsNotWrong(cfg, s, last, user);
      assert h + [] == h;
    }
  }

  lemma NothingFailed(user: UserId, now: real)
    ensures Events(EMPTY.guard.failures, user) == [] && Ordered([], now)
  {
  }

  lemma ClearsIsNotWrong(cfg: Config, s: State, call: Call, user: UserId)
    ensures !(WrongTotp(cfg, s, call, user) && Clears(cfg, s, call, user))
  {
    hide Step, Prune;
  }

  /** The lock is exact: a wrong authenticator code locks its user, for the lockout from that
      moment, if and only if it is at least the `maxAttempts`-th since the failures were last
      cleared within the closed window that ends with it; and no other call ever locks. */
  lemma LockedExactly(cfg: Config, calls: seq<Call>, call: Call, user: UserId)
    requires Timed(calls + [call])
    ensures
      var s := After(cfg, calls);
      var locks, before := Step(cfg, s, call.op, call.at).state.guard.locks, s.guard.locks;
      if WrongTotp(cfg, s, call, user) then (
        && (user in locks <==> |Since(Failures(cfg, calls, user), call.at - cfg.window as real)| + 1 >= cfg.maxAttempts)
        && (user in locks ==> locks[user] == call.at + cfg.lockout as real))
      else user in locks ==> user in before && locks[user] == before[user]
  {
    hide Step, After, Events, Ordered, Since, Dropped, WrongTotp, Clears, Failures;
    var s := After(cfg, calls);
    assert (calls + [call])[|calls|] == call && forall i :: 0 <= i < |calls| ==> (calls + [call])[i] == calls[i];
    StoredFailures(cfg, calls, user, call.at);
    StepFailures(cfg, s, call, user);
    DroppedIsSince(Events(s.guard.failures, user), call.at - cfg.window as real, call.at);
  }
}
