/** The counting limits over whole runs: although only pruned queues are stored, no closed
    interval of a window's length ever holds more accepted events than its limit, and
    `Retry-After` names the first whole second at which a full window opens again. */
module OtpWindows {
  import opened Wrappers
  import opened Otp

  // -- What is counted -------------------------------------------------------------

  datatype Counter =
    | Destination(channel: Channel, address: Address)
    | Sends(address: Address)
    | Requests(address: Address)
    | Daily(group: LimitGroup, user: UserId)

  function Stored(l: Limits, c: Counter): seq<real> {
    match c
    case Destination(channel, address) => Events(l.destinationSends, (channel, address))
    case Sends(address) => Events(l.addressSends, address)
    case Requests(address) => Events(l.addressRequests, address)
    case Daily(group, user) => Events(l.sends, (group, user))
  }

  function Horizon(cfg: Config, c: Counter): int {
    if c.Daily? then DAY else cfg.window
  }

  function Cap(cfg: Config, c: Counter): (cap: int)
    ensures cap >= 1
  {
    match c
    case Destination(_, _) => cfg.perDestination
    case Sends(_) => cfg.perAddress
    case Requests(_) => cfg.perAddress
    case Daily(group, _) => DailyLimit(cfg, group)
  }

  /** The call was accepted and is one this counter measures. */
  predicate Counts(op: Operation, answer: Answer, c: Counter) {
    match c
    case Destination(channel, address) => op.Claim? && answer.Issued? && op.channel == channel && op.destination == Some(address)
    case Sends(address) => op.Claim? && answer.Issued? && op.address == Some(address)
    case Requests(address) => op.ReserveRequest? && answer == Accepted && op.address == Some(address)
    case Daily(group, user) => op.Claim? && answer.Issued? && GroupOf(op.purpose) == group && op.user == user
  }

  /** The times of all accepted events of a run, none of them ever forgotten. */
  function History(cfg: Config, calls: seq<Call>, c: Counter): seq<real> {
    if calls == [] then []
    else
      var n := |calls| - 1;
      var last := calls[n];
      var answer := Step(cfg, After(cfg, calls[..n]), last.op, last.at).answer;
      History(cfg, calls[..n], c) + if Counts(last.op, answer, c) then [last.at] else []
  }

  /** How many events fall into the closed interval. */
  function Within(q: seq<real>, from: real, to: real): nat {
    if q == [] then 0
    else
      var n := |q| - 1;
      Within(q[..n], from, to) + if from <= q[n] <= to then 1 else 0
  }

  // -- Queues ----------------------------------------------------------------------

  predicate Ordered(q: seq<real>, now: real) {
    && (forall i :: 0 <= i < |q| ==> q[i] <= now)
    && forall i, j :: 0 <= i < j < |q| ==> q[i] <= q[j]
  }

  lemma SinceAppend(q: seq<real>, x: real, cutoff: real)
    ensures Since(q + [x], cutoff) == Since(q, cutoff) + if x >= cutoff then [x] else []
  {
    assert (q + [x])[..|q|] == q;
  }

  lemma {:induction false} SinceJoin(a: seq<real>, b: seq<real>, cutoff: real)
    ensures Since(a + b, cutoff) == Since(a, cutoff) + Since(b, cutoff)
  {
    if b == [] {
      assert a + b == a;
    } else {
      var n := |b| - 1;
      assert a + b == (a + b[..n]) + [b[n]] && b == b[..n] + [b[n]];
      SinceAppend(a + b[..n], b[n], cutoff);
      SinceAppend(b[..n], b[n], cutoff);
      SinceJoin(a, b[..n], cutoff);
    }
  }

  /** Dropping old events hides nothing from a later cutoff. */
  lemma {:induction false} SinceDropped(q: seq<real>, early: real, cutoff: real)
    requires early <= cutoff
    ensures Since(Dropped(q, early), cutoff) == Since(q, cutoff)
  {
    if q != [] && q[0] < early {
      SinceDropped(q[1..], early, cutoff);
      var one: seq<real> := [q[0]];
      assert q == one + q[1..] && one[..0] == [];
      SinceJoin(one, q[1..], cutoff);
    }
  }

  lemma {:induction false} SinceAll(q: seq<real>, cutoff: real)
    requires forall i :: 0 <= i < |q| ==> q[i] >= cutoff
    ensures Since(q, cutoff) == q
  {
    if q != [] {
      SinceAll(q[..|q| - 1], cutoff);
    }
  }

  /** On an ordered queue, popping from the front is filtering. */
  lemma {:induction false} DroppedIsSince(q: seq<real>, cutoff: real, now: real)
    requires Ordered(q, now)
    ensures Dropped(q, cutoff) == Since(q, cutoff) && Ordered(Dropped(q, cutoff), now)
  {
    if q == [] || q[0] >= cutoff {
      SinceAll(q, cutoff);
    } else {
      DroppedIsSince(q[1..], cutoff, now);
      var one: seq<real> := [q[0]];
      assert q == one + q[1..] && one[..0] == [];
      SinceJoin(one, q[1..], cutoff);
    }
  }

  lemma {:induction false} SinceShrinks(q: seq<real>, early: real, cutoff: real)
    requires early <= cutoff
    ensures |Since(q, cutoff)| <= |Since(q, early)|
  {
    if q != [] {
      SinceShrinks(q[..|q| - 1], early, cutoff);
    }
  }

  lemma {:induction false} WithinIsSince(q: seq<real>, from: real, to: real)
    ensures Within(q, from, to) <= |Since(q, from)|
    ensures (forall i :: 0 <= i < |q| ==> q[i] <= to) ==> Within(q, from, to) == |Since(q, from)|
  {
    if q != [] {
      WithinIsSince(q[..|q| - 1], from, to);
    }
  }

  // -- One step --------------------------------------------------------------------

  lemma PruneStores(cfg: Config, l: Limits, now: real, c: Counter)
    ensures Stored(PruneLimits(cfg, l, now), c) == Dropped(Stored(l, c), now - Horizon(cfg, c) as real)
  {
  }

  /** The request is one this counter measures. */
  predicate Measures(r: Request, c: Counter) {
    match c
    case Destination(channel, address) => r.channel == channel && r.destination == Some(address)
    case Sends(address) => r.address == Some(address)
    case Requests(_) => false
    case Daily(group, user) => r.sendsMessage && GroupOf(r.purpose) == group && r.user == user
  }

  /** The check the counter makes of its queue, after pruning. */
  predicate HasRoom(cfg: Config, q: seq<real>, now: real, c: Counter) {
    if c.Daily? then |q| < Cap(cfg, c) else WindowRefusal(q, Cap(cfg, c), cfg.window, now).None?
  }

  /** An accepted request stays under every limit it is recorded at, and is recorded once;
      the bounded daily queue never loses an entry to its bound. */
  lemma RecordStores(cfg: Config, l: Limits, r: Request, now: real, c: Counter)
    requires Refusal(cfg, l, r, now).None?
    ensures Stored(Recorded(cfg, l, r, now), c) == Stored(l, c) + (if Measures(r, c) then [now] else [])
    ensures Measures(r, c) ==> HasRoom(cfg, Stored(l, c), now, c)
  {
  }

  /** What one call does to a counter's queue. */
  lemma StepStores(cfg: Config, s: State, op: Operation, now: real, c: Counter)
    requires Ordered(Stored(s.limits, c), now)
    ensures
      var o := Step(cfg, s, op, now);
      var q, cutoff := Stored(s.limits, c), now - Horizon(cfg, c) as real;
      if Counts(op, o.answer, c)
      then Stored(o.state.limits, c) == Dropped(q, cutoff) + [now] && |Since(q, cutoff)| < Cap(cfg, c)
      else Stored(o.state.limits, c) == Dropped(q, cutoff) || Stored(o.state.limits, c) == q
  {
    hide Prune, ClaimStep, VerifyStep, Stored, Dropped, Since, HasRoom;
    PruneStores(cfg, s.limits, now, c);
    RoomBeforePruning(cfg, Stored(s.limits, c), now, c);
    PruneIsByParts(cfg, s, now);
    if Mints(op) {
      ClaimStores(cfg, Prune(cfg, s, now), op, now, c);
    } else if op.Verify? {
      VerifyKeepsLimits(cfg, Prune(cfg, s, now), op, now);
    } else {
      OtherStores(cfg, s, op, now, c);
    }
  }

  lemma PruneIsByParts(cfg: Config, s: State, now: real)
    ensures Prune(cfg, s, now).limits == PruneLimits(cfg, s.limits, now)
  {
  }

  lemma RoomBeforePruning(cfg: Config, q: seq<real>, now: real, c: Counter)
    requires Ordered(q, now)
    ensures var cutoff := now - Horizon(cfg, c) as real;
      HasRoom(cfg, Dropped(q, cutoff), now, c) ==> |Since(q, cutoff)| < Cap(cfg, c)
  {
    hide Ordered, Since, Dropped, Least, Cap;
    var cutoff := now - Horizon(cfg, c) as real;
    DroppedIsSince(q, cutoff, now);
    SinceDropped(q, cutoff, cutoff);
  }

  lemma ClaimStores(cfg: Config, pruned: State, op: Operation, now: real, c: Counter)
    requires Mints(op)
    ensures
      var o := ClaimStep(cfg, pruned, op, now);
      var q := Stored(pruned.limits, c);
      Stored(o.state.limits, c) == q + (if Counts(op, o.answer, c) then [now] else [])
      && (Counts(op, o.answer, c) ==> HasRoom(cfg, q, now, c))
  {
    hide LockRefusal, Minted;
    if ClaimRefusal(cfg, pruned, op, now).None? && !Unthrottled(op) {
      RecordStores(cfg, pruned.limits, RequestOf(op), now, c);
      hide Refusal, Recorded, Stored, HasRoom;
      assert Counts(op, Issued(op.id), c) <==> Measures(RequestOf(op), c);
    }
  }

  lemma VerifyKeepsLimits(cfg: Config, pruned: State, op: Operation, now: real)
    requires op.Verify?
    ensures VerifyStep(cfg, pruned, op, now).state.limits == pruned.limits
  {
    hide VerifyRefusal, Judge;
  }

  lemma OtherStores(cfg: Config, s: State, op: Operation, now: real, c: Counter)
    requires !Mints(op) && !op.Verify?
    ensures
      var o := Step(cfg, s, op, now);
      var q := Stored(Prune(cfg, s, now).limits, c);
      if Counts(op, o.answer, c)
      then Stored(o.state.limits, c) == q + [now] && HasRoom(cfg, q, now, c)
      else Stored(o.state.limits, c) == q || Stored(o.state.limits, c) == Stored(s.limits, c)
  {
    hide Prune, WindowRefusal, Lookup, ClearUser, Committed, Commits;
  }

  // -- Whole runs ------------------------------------------------------------------

  predicate Until(calls: seq<Call>, now: real) {
    forall i :: 0 <= i < |calls| ==> calls[i].at <= now
  }

  /** The stored queue holds exactly the recent part of the whole history. */
  lemma {:induction false} StoredIsRecentHistory(cfg: Config, calls: seq<Call>, c: Counter, now: real)
    requires Timed(calls) && Until(calls, now)
    ensures
      var stored, cutoff := Stored(After(cfg, calls).limits, c), now - Horizon(cfg, c) as real;
      Ordered(stored, now) && Since(stored, cutoff) == Since(History(cfg, calls, c), cutoff)
  {
    hide Step, Stored, Ordered, Since, Dropped, Counts, Horizon;
    if calls == [] {
      NothingStored(c, now);
    } else {
      var n := |calls| - 1;
      var before, last := calls[..n], calls[n];
      StoredIsRecentHistory(cfg, before, c, last.at);
      StoredIsRecentHistory(cfg, before, c, now);
      RecentStep(cfg, After(cfg, before), History(cfg, before, c), last, c, now);
    }
  }

  /** One call, seen from a later time. */
  lemma RecentStep(cfg: Config, s: State, h: seq<real>, call: Call, c: Counter, now: real)
    requires Ordered(Stored(s.limits, c), call.at) && call.at <= now
    requires Since(Stored(s.limits, c), now - Horizon(cfg, c) as real) == Since(h, now - Horizon(cfg, c) as real)
    ensures
      var o, cutoff := Step(cfg, s, call.op, call.at), now - Horizon(cfg, c) as real;
      Ordered(Stored(o.state.limits, c), now)
      && Since(Stored(o.state.limits, c), cutoff) == Since(h + if Counts(call.op, o.answer, c) then [call.at] else [], cutoff)
  {
    hide Step, Stored, Ordered, Since, Dropped, Counts, Horizon;
    StepStores(cfg, s, call.op, call.at, c);
    LaterRecent(Stored(s.limits, c), h, call.at - Horizon(cfg, c) as real, call.at, now - Horizon(cfg, c) as real, now);
    assert h + [] == h;
  }

  lemma NothingStored(c: Counter, now: real)
    ensures Stored(EMPTY.limits, c) == [] && Ordered([], now)
  {
  }

  /** Dropping old events and adding the present one keeps a queue recent, for any later time. */
  lemma LaterRecent(q: seq<real>, h: seq<real>, early: real, at: real, cutoff: real, now: real)
    requires Ordered(q, at) && Since(q, cutoff) == Since(h, cutoff) && early <= cutoff && at <= now
    ensures Ordered(q, now) && Ordered(Dropped(q, early), now) && Ordered(Dropped(q, early) + [at], now)
    ensures Since(Dropped(q, early), cutoff) == Since(h, cutoff)
    ensures Since(Dropped(q, early) + [at], cutoff) == Since(h + [at], cutoff)
  {
    DroppedIsSince(q, early, at);
    SinceDropped(q, early, cutoff);
    SinceAppend(Dropped(q, early), at, cutoff);
    SinceAppend(h, at, cutoff);
  }

  /** The sliding-window theorem: in every run, every closed interval as long as the
      window holds at most the limit's number of accepted events. */
  lemma {:induction false} WindowBound(cfg: Config, calls: seq<Call>, c: Counter, from: real)
    requires Timed(calls)
    ensures Within(History(cfg, calls, c), from, from + Horizon(cfg, c) as real) <= Cap(cfg, c)
  {
    hide Step, Stored, Since, Dropped, Counts, Cap, Horizon;
    if calls != [] {
      var n := |calls| - 1;
      var before, last := calls[..n], calls[n];
      var s, h, to := After(cfg, before), History(cfg, before, c), from + Horizon(cfg, c) as real;
      WindowBound(cfg, before, c, from);
      assert (h + [last.at])[..|h|] == h;
      assert h + [] == h;
      if Counts(last.op, Step(cfg, s, last.op, last.at).answer, c) && from <= last.at <= to {
        StoredIsRecentHistory(cfg, before, c, last.at);
        StepStores(cfg, s, last.op, last.at, c);
        WithinIsSince(h, from, to);
        SinceShrinks(h, last.at - Horizon(cfg, c) as real, from);
      }
    }
  }

  /** A counter has room if and only if fewer than its limit of accepted events lie in the
      closed interval that ends now: nothing is refused early, nothing accepted late. */
  lemma RoomExactly(cfg: Config, calls: seq<Call>, c: Counter, now: real)
    requires Timed(calls) && Until(calls, now)
    ensures
      var cutoff := now - Horizon(cfg, c) as real;
      HasRoom(cfg, Dropped(Stored(After(cfg, calls).limits, c), cutoff), now, c)
      <==> Within(History(cfg, calls, c), cutoff, now) < Cap(cfg, c)
  {
    hide After, History, Stored, Since, Dropped, Cap, Ordered, Least;
    var q, cutoff := Stored(After(cfg, calls).limits, c), now - Horizon(cfg, c) as real;
    StoredIsRecentHistory(cfg, calls, c, now);
    HistoryUntil(cfg, calls, c, now);
    WithinIsSince(History(cfg, calls, c), cutoff, now);
    DroppedIsSince(q, cutoff, now);
    SinceDropped(q, cutoff, cutoff);
  }

  // -- Retry-After -----------------------------------------------------------------

  /** A full window holds exactly its limit of recent events. */
  lemma FullWindow(cfg: Config, calls: seq<Call>, c: Counter, now: real)
    requires Timed(calls) && Until(calls, now)
    ensures |Since(Stored(After(cfg, calls).limits, c), now - Horizon(cfg, c) as real)| <= Cap(cfg, c)
  {
    hide Step, Prune;
    var from := now - Horizon(cfg, c) as real;
    StoredIsRecentHistory(cfg, calls, c, now);
    WindowBound(cfg, calls, c, from);
    HistoryUntil(cfg, calls, c, now);
    WithinIsSince(History(cfg, calls, c), from, now);
  }

  lemma {:induction false} HistoryUntil(cfg: Config, calls: seq<Call>, c: Counter, now: real)
    requires Until(calls, now)
    ensures forall i :: 0 <= i < |History(cfg, calls, c)| ==> History(cfg, calls, c)[i] <= now
  {
    hide Step, Prune;
    if calls != [] {
      HistoryUntil(cfg, calls[..|calls| - 1], c, now);
    }
  }

  /** The wait of a full window opens it, and no shorter whole number of seconds does. */
  lemma WaitIsLeast(q: seq<real>, limit: int, window: int, now: real, k: nat)
    requires limit >= 1 && Ordered(q, now) && |Since(q, now - window as real)| <= limit
    requires WindowRefusal(q, limit, window, now).Some?
    ensures var wait := WindowRefusal(q, limit, window, now).value;
      wait >= 1 && (k < wait ==> WindowRefusal(q, limit, window, now + k as real).Some?)
      && (k == wait ==> WindowRefusal(q, limit, window, now + k as real).None?)
  {
    hide Since, Dropped, Ordered, Least;
    var cutoff, later := now - window as real, now + k as real - window as real;
    var recent := Since(q, cutoff);
    DroppedIsSince(q, cutoff, now);
    SinceTwice(q, cutoff, later);
    FirstIsLeast(recent, now);
    if recent[0] >= later {
      SinceAllOrdered(recent, later, now);
    } else {
      FirstIsOld(recent, later);
    }
  }

  lemma FirstIsLeast(q: seq<real>, now: real)
    requires q != [] && Ordered(q, now)
    ensures Least(q) == q[0]
  {
  }

  lemma SinceAllOrdered(q: seq<real>, cutoff: real, now: real)
    requires Ordered(q, now) && q != [] && q[0] >= cutoff
    ensures Since(q, cutoff) == q
  {
    SinceAll(q, cutoff);
  }

  lemma {:induction false} SinceTwice(q: seq<real>, early: real, cutoff: real)
    requires early <= cutoff
    ensures Since(Since(q, early), cutoff) == Since(q, cutoff)
  {
    if q != [] {
      var n := |q| - 1;
      SinceTwice(q[..n], early, cutoff);
      if q[n] >= early {
        SinceAppend(Since(q[..n], early), q[n], cutoff);
      } else {
        assert Since(q[..n], early) + [] == Since(q[..n], early);
      }
    }
  }

  lemma FirstIsOld(q: seq<real>, cutoff: real)
    requires q != [] && q[0] < cutoff
    ensures |Since(q, cutoff)| < |q|
  {
    var one: seq<real> := [q[0]];
    assert q == one + q[1..] && one[..0] == [];
    SinceJoin(one, q[1..], cutoff);
  }

  /** The call was refused by this counter's window. */
  predicate RefusedBy(op: Operation, answer: Answer, c: Counter) {
    answer.Refused? && match c
      case Destination(channel, address) =>
        op.Claim? && answer.limit == DestinationWindow && op.channel == channel && op.destination == Some(address)
      case Sends(address) => op.Claim? && answer.limit == AddressWindow && op.address == Some(address)
      case Requests(address) => op.ReserveRequest? && answer.limit == RequestWindow && op.address == Some(address)
      case Daily(_, _) => false
  }

  lemma RefusedByWindow(cfg: Config, s: State, op: Operation, now: real, c: Counter)
    requires RefusedBy(op, Step(cfg, s, op, now).answer, c)
    ensures WindowRefusal(Stored(PruneLimits(cfg, s.limits, now), c), Cap(cfg, c), cfg.window, now)
         == Some(Step(cfg, s, op, now).answer.retryAfter)
  {
    hide PruneLimits, PruneCodes, PruneGuard, Recorded, WindowRefusal, VerifyStep, Minted, Committed;
  }

  /** The `Retry-After` of a window is enough and not a second too long: however the run
      goes on, while nothing else is counted the same check passes `wait` seconds after the
      refusal, and at no earlier whole second. */
  lemma RetryAfterIsExact(cfg: Config, calls: seq<Call>, refused: Call, more: seq<Call>, c: Counter, k: nat)
    requires Timed(calls) && Until(calls, refused.at)
    requires RefusedBy(refused.op, Step(cfg, After(cfg, calls), refused.op, refused.at).answer, c)
    requires Timed(calls + [refused] + more) && Until(more, refused.at + k as real)
    requires History(cfg, calls + [refused] + more, c) == History(cfg, calls, c)
    ensures !c.Daily?
    ensures
      var wait := Step(cfg, After(cfg, calls), refused.op, refused.at).answer.retryAfter;
      var now := Stored(After(cfg, calls + [refused] + more).limits, c);
      (k == wait ==> WindowRefusal(now, Cap(cfg, c), cfg.window, refused.at + k as real).None?)
      && (k < wait ==> WindowRefusal(now, Cap(cfg, c), cfg.window, refused.at + k as real).Some?)
  {
    hide Step, Stored, Since, Dropped, Ordered, History, WindowRefusal;
    var s, at := After(cfg, calls), refused.at;
    var q, window := Stored(s.limits, c), cfg.window;
    RefusedByWindow(cfg, s, refused.op, at, c);
    PruneStores(cfg, s.limits, at, c);
    SinceDropped(q, at - window as real, at - window as real);
    SameRecent(Dropped(q, at - window as real), q, Cap(cfg, c), window, at);
    StoredIsRecentHistory(cfg, calls, c, at);
    FullWindow(cfg, calls, c, at);
    WaitIsLeast(q, Cap(cfg, c), window, at, k);
    var later := at + k as real;
    StoredIsRecentHistory(cfg, calls + [refused] + more, c, later);
    StoredIsRecentHistory(cfg, calls, c, later);
    SameRecent(q, Stored(After(cfg, calls + [refused] + more).limits, c), Cap(cfg, c), window, later);
  }

  lemma SameRecent(a: seq<real>, b: seq<real>, limit: int, window: int, now: real)
    requires limit >= 1 && Since(a, now - window as real) == Since(b, now - window as real)
    ensures WindowRefusal(a, limit, window, now) == WindowRefusal(b, limit, window, now)
  {
    hide Since, Least;
  }
}
