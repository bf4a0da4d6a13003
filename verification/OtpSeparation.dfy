/** Sign-in and recovery do not interfere over whole runs: taking every call of one limit
    group out of a run changes no answer given to the other, unless a window that both use or
    the authenticator lock refuses. */
module OtpSeparation {
  import opened Wrappers
  import opened Otp
  import opened OtpWindows
  import opened OtpLifecycle
  import opened OtpPruning

  // -- Whose call it is ------------------------------------------------------------

  /** One limit group, its challenges, and the destinations and client addresses that the
      other group never sends to or for. */
  datatype Side = Side(
    group: LimitGroup, ids: set<ChallengeId>, destinations: set<(Channel, Address)>, addresses: set<Address>)

  predicate Ours(op: Operation, side: Side) {
    match op
    case Claim(_, _, _, purpose, _, _, _) => GroupOf(purpose) == side.group
    case ClaimTotp(_, _, purpose, _, _) => GroupOf(purpose) == side.group
    case RequireLive(_, purpose) => GroupOf(purpose) == side.group
    case Verify(_, _, purpose, _, _) => GroupOf(purpose) == side.group
    case Commit(id, _) => id in side.ids
    case Discard(id, _) => id in side.ids
    case _ => true
  }

  /** The call keeps to its side: it mints on it, and leaves the other's windows alone. */
  predicate KeepsApart(op: Operation, side: Side) {
    match op
    case Claim(id, _, _, _, channel, destination, address) =>
      && (id in side.ids <==> Ours(op, side))
      && (!Ours(op, side) ==>
            && (destination.Some? ==> (channel, destination.value) !in side.destinations)
            && (address.Some? ==> address.value !in side.addresses))
    case ClaimTotp(id, _, _, _, _) => id in side.ids <==> Ours(op, side)
    case Commit(id, supersedes) => supersedes.Some? ==> (supersedes.value in side.ids <==> id in side.ids)
    case _ => true
  }

  /** The answer is no refusal of a window that the other group may fill. */
  predicate OwnRefusal(op: Operation, answer: Answer, side: Side) {
    answer.Refused? ==>
      && (answer.limit == DestinationWindow ==>
            op.Claim? && op.destination.Some? && (op.channel, op.destination.value) in side.destinations)
      && (answer.limit == AddressWindow ==> op.Claim? && op.address.Some? && op.address.value in side.addresses)
  }

  predicate Locked(answer: Answer) { answer.Refused? && answer.limit == Lockout }

  /** The run without the other group's calls. */
  function Only(calls: seq<Call>, side: Side): seq<Call> {
    if calls == [] then []
    else
      var last := calls[|calls| - 1];
      Only(calls[..|calls| - 1], side) + if Ours(last.op, side) then [last] else []
  }

  // -- What a group sees of the store ----------------------------------------------

  function Of<K(==), V>(store: map<K, V>, key: K): Option<V> {
    if key in store then Some(store[key]) else None
  }

  ghost predicate SameCodes(side: Side, a: Codes, b: Codes) {
    forall id :: id in side.ids ==> Of(a.pending, id) == Of(b.pending, id) && Of(a.live, id) == Of(b.live, id)
  }

  ghost predicate SameLimits(side: Side, a: Limits, b: Limits) {
    && (forall user, channel :: Of(a.lastSend, (side.group, user, channel)) == Of(b.lastSend, (side.group, user, channel)))
    && (forall user :: Of(a.sends, (side.group, user)) == Of(b.sends, (side.group, user)))
    && (forall d :: d in side.destinations ==> Of(a.destinationSends, d) == Of(b.destinationSends, d))
    && (forall x :: x in side.addresses ==> Of(a.addressSends, x) == Of(b.addressSends, x))
    && FullerWindows(a, b)
    && a.addressRequests == b.addressRequests
  }

  /** The other group's sends fill the shared windows, and nothing empties them. */
  ghost predicate FullerWindows(a: Limits, b: Limits) {
    && (forall d :: Fuller(Events(a.destinationSends, d), Events(b.destinationSends, d)))
    && (forall x :: Fuller(Events(a.addressSends, x), Events(b.addressSends, x)))
  }

  /** Whenever it is looked at, the first queue holds at least as many events. */
  ghost predicate Fuller(q: seq<real>, r: seq<real>) {
    forall cutoff :: |Since(r, cutoff)| <= |Since(q, cutoff)|
  }

  ghost predicate Same(side: Side, a: State, b: State) {
    SameCodes(side, a.codes, b.codes) && SameLimits(side, a.limits, b.limits)
  }

  predicate OnSide(side: Side, id: ChallengeId, c: Challenge) {
    id in side.ids <==> GroupOf(c.purpose) == side.group
  }

  /** Every challenge is on the side its id and purpose say. */
  ghost predicate Tidy(side: Side, codes: Codes) {
    forall id ::
      && (Of(codes.pending, id).Some? ==> OnSide(side, id, Of(codes.pending, id).value))
      && (Of(codes.live, id).Some? ==> OnSide(side, id, Of(codes.live, id).value))
  }

  /** A store with no other challenges than before is as tidy. */
  lemma TidySome(side: Side, a: Codes, b: Codes)
    requires Tidy(side, a)
    requires forall id :: Of(b.pending, id).Some? ==> Of(b.pending, id) == Of(a.pending, id) || OnSide(side, id, Of(b.pending, id).value)
    requires forall id :: Of(b.live, id).Some? ==> Of(b.live, id) == Of(a.live, id) || OnSide(side, id, Of(b.live, id).value)
    ensures Tidy(side, b)
  {
    hide OnSide, Of;
    forall id
      ensures Of(b.pending, id).Some? ==> OnSide(side, id, Of(b.pending, id).value)
      ensures Of(b.live, id).Some? ==> OnSide(side, id, Of(b.live, id).value)
    {
      assert Of(a.pending, id).Some? ==> OnSide(side, id, Of(a.pending, id).value);
      assert Of(a.live, id).Some? ==> OnSide(side, id, Of(a.live, id).value);
    }
  }

  // -- Refusals --------------------------------------------------------------------

  lemma KeptOf<K, V>(store: map<K, V>, keep: V -> bool, key: K)
    ensures Of(Kept(store, keep), key) == if key in store && keep(store[key]) then Some(store[key]) else None
  {
  }

  lemma RecentOf<K>(store: map<K, seq<real>>, cutoff: real, key: K)
    ensures Events(Recent(store, cutoff), key) == match Of(store, key) { case Some(q) => Since(q, cutoff) case None => [] }
  {
  }

  lemma SameAllowance(cfg: Config, side: Side, a: Limits, b: Limits, r: Request, now: real)
    requires SameLimits(side, a, b) && GroupOf(r.purpose) == side.group
    ensures CooldownRefusal(cfg, LimitsView(cfg, a, now), r, now) == CooldownRefusal(cfg, LimitsView(cfg, b, now), r, now)
    ensures DailyRefusal(cfg, LimitsView(cfg, a, now), r) == DailyRefusal(cfg, LimitsView(cfg, b, now), r)
  {
    hide Recent, Kept, DailyLimit;
    var key := (side.group, r.user, r.channel);
    KeptOf(a.lastSend, Cooling(cfg.cooldown, now), key);
    KeptOf(b.lastSend, Cooling(cfg.cooldown, now), key);
    assert Of(a.lastSend, key) == Of(b.lastSend, key) && Of(a.sends, (side.group, r.user)) == Of(b.sends, (side.group, r.user));
    RecentOf(a.sends, now - DAY as real, (side.group, r.user));
    RecentOf(b.sends, now - DAY as real, (side.group, r.user));
  }

  /** A window that has room in the fuller store has room in the other. */
  lemma RoomInBoth(q: seq<real>, r: seq<real>, limit: int, window: int, now: real)
    requires limit >= 1 && Fuller(q, r)
    ensures var cutoff := now - window as real;
      WindowRefusal(Since(q, cutoff), limit, window, now).None? ==> WindowRefusal(Since(r, cutoff), limit, window, now).None?
  {
    hide Since, Least;
    SinceTwice(q, now - window as real, now - window as real);
    SinceTwice(r, now - window as real, now - window as real);
  }

  lemma SameDestination(cfg: Config, side: Side, a: Limits, b: Limits, r: Request, now: real)
    requires SameLimits(side, a, b)
    requires r.destination.None? || (r.channel, r.destination.value) in side.destinations || DestinationRefusal(cfg, LimitsView(cfg, a, now), r, now).None?
    ensures DestinationRefusal(cfg, LimitsView(cfg, a, now), r, now) == DestinationRefusal(cfg, LimitsView(cfg, b, now), r, now)
  {
    hide WindowRefusal, Recent, Kept, Since, Fuller;
    if r.destination.Some? {
      var d, cutoff := (r.channel, r.destination.value), now - cfg.window as real;
      RecentEvents(a.destinationSends, cutoff, d);
      RecentEvents(b.destinationSends, cutoff, d);
      RoomInBoth(Events(a.destinationSends, d), Events(b.destinationSends, d), cfg.perDestination, cfg.window, now);
    }
  }

  lemma SameAddress(cfg: Config, side: Side, a: Limits, b: Limits, r: Request, now: real)
    requires SameLimits(side, a, b)
    requires r.address.None? || r.address.value in side.addresses || AddressRefusal(cfg, LimitsView(cfg, a, now), r, now).None?
    ensures AddressRefusal(cfg, LimitsView(cfg, a, now), r, now) == AddressRefusal(cfg, LimitsView(cfg, b, now), r, now)
  {
    hide WindowRefusal, Recent, Kept, Since, Fuller;
    if r.address.Some? {
      var x, cutoff := r.address.value, now - cfg.window as real;
      RecentEvents(a.addressSends, cutoff, x);
      RecentEvents(b.addressSends, cutoff, x);
      RoomInBoth(Events(a.addressSends, x), Events(b.addressSends, x), cfg.perAddress, cfg.window, now);
    }
  }

  lemma RecentEvents<K>(store: map<K, seq<real>>, cutoff: real, key: K)
    ensures Events(Recent(store, cutoff), key) == Since(Events(store, key), cutoff)
    ensures Of(store, key) == Some(Events(store, key)) || (Of(store, key) == None && Events(store, key) == [])
  {
  }

  lemma SameRefusal(cfg: Config, side: Side, a: Limits, b: Limits, op: Operation, now: real)
    requires Mints(op) && Ours(op, side) && SameLimits(side, a, b)
    requires match Refusal(cfg, LimitsView(cfg, a, now), RequestOf(op), now)
      case Some(answer) => OwnRefusal(op, answer, side)
      case None => true
    ensures Refusal(cfg, LimitsView(cfg, a, now), RequestOf(op), now) == Refusal(cfg, LimitsView(cfg, b, now), RequestOf(op), now)
  {
    var r := RequestOf(op);
    WindowLimits(cfg, LimitsView(cfg, a, now), r, now);
    SameAllowance(cfg, side, a, b, r, now);
    hide CooldownRefusal, DailyRefusal, DestinationRefusal, AddressRefusal, LimitsView, SameLimits;
    if CooldownRefusal(cfg, LimitsView(cfg, a, now), r, now).None? {
      SameDestination(cfg, side, a, b, r, now);
      if DestinationRefusal(cfg, LimitsView(cfg, a, now), r, now).None? {
        SameAddress(cfg, side, a, b, r, now);
      }
    }
  }

  lemma WindowLimits(cfg: Config, l: Limits, r: Request, now: real)
    ensures DestinationRefusal(cfg, l, r, now).Some? ==>
      DestinationRefusal(cfg, l, r, now).value.Refused? && DestinationRefusal(cfg, l, r, now).value.limit == DestinationWindow
    ensures AddressRefusal(cfg, l, r, now).Some? ==>
      AddressRefusal(cfg, l, r, now).value.Refused? && AddressRefusal(cfg, l, r, now).value.limit == AddressWindow
  {
    hide WindowRefusal;
  }

  lemma SameClaimRefusal(cfg: Config, side: Side, a: State, b: State, op: Operation, now: real)
    requires Mints(op) && Ours(op, side) && Same(side, a, b)
    requires op.ClaimTotp? ==> LockRefusal(GuardView(cfg, a.guard, now), op.user, now).None? && LockRefusal(GuardView(cfg, b.guard, now), op.user, now).None?
    requires match ClaimRefusal(cfg, View(cfg, a, now), op, now)
      case Some(answer) => OwnRefusal(op, answer, side)
      case None => true
    ensures ClaimRefusal(cfg, View(cfg, a, now), op, now) == ClaimRefusal(cfg, View(cfg, b, now), op, now)
  {
    hide Refusal, LockRefusal, LimitsView, GuardView, SameLimits, SameCodes, OwnRefusal;
    if !Unthrottled(op) {
      SameRefusal(cfg, side, a.limits, b.limits, op, now);
    }
  }

  // -- The guard -------------------------------------------------------------------

  /** The other group's wrong codes count too, so who is locked without them is locked with
      them, for at least as long. */
  ghost predicate FullerGuard(cfg: Config, a: Guard, b: Guard, now: real) {
    FullerFailures(a.failures, b.failures) && LongerLocks(cfg, a.locks, b.locks, now)
  }

  ghost predicate FullerFailures(a: map<UserId, seq<real>>, b: map<UserId, seq<real>>) {
    forall u :: Fuller(Events(a, u), Events(b, u))
  }

  predicate LongerLocks(cfg: Config, a: map<UserId, real>, b: map<UserId, real>, now: real) {
    forall u :: u in b ==> u in a && b[u] <= a[u] && b[u] <= now + cfg.lockout as real
  }

  /** The call proves an authenticator, which forgives the user's wrong codes. */
  predicate Forgives(op: Operation, answer: Answer) {
    op.Verify? && answer.Verified? && answer.challenge.channel == Totp
  }

  lemma UnlockedToo(cfg: Config, a: Guard, b: Guard, user: UserId, since: real, now: real)
    requires FullerGuard(cfg, a, b, since) && LockRefusal(GuardView(cfg, a, now), user, now).None? && now >= 0.0
    ensures LockRefusal(GuardView(cfg, b, now), user, now).None?
  {
    hide FullerFailures, Recent;
  }

  lemma AppendedEvents(store: map<UserId, seq<real>>, user: UserId, now: real)
    ensures forall u :: Events(Append(store, user, now), u) == if u == user then Events(store, u) + [now] else Events(store, u)
  {
  }

  lemma FailuresFuller(a: map<UserId, seq<real>>, b: map<UserId, seq<real>>, user: UserId, now: real)
    requires FullerFailures(a, b)
    ensures FullerFailures(Append(a, user, now), Append(b, user, now)) && FullerFailures(Append(a, user, now), b)
    ensures forall cutoff :: |Since(Events(b, user), cutoff)| <= |Since(Events(a, user), cutoff)|
  {
    AppendedEvents(a, user, now);
    AppendedEvents(b, user, now);
    assert Fuller(Events(a, user), Events(b, user));
    hide Fuller, Append, Events;
    forall u
      ensures Fuller(Events(Append(a, user, now), u), Events(Append(b, user, now), u))
      ensures Fuller(Events(Append(a, user, now), u), Events(b, u))
    {
      assert Fuller(Events(a, u), Events(b, u));
      FullerMore(Events(a, u), Events(b, u), now);
    }
  }

  lemma FailureIsFuller(cfg: Config, a: Guard, b: Guard, user: UserId, since: real, now: real)
    requires FullerGuard(cfg, a, b, since) && since <= now
    ensures FullerGuard(cfg, ReferenceFailure(cfg, a, user, now), ReferenceFailure(cfg, b, user, now), now)
    ensures FullerGuard(cfg, ReferenceFailure(cfg, a, user, now), b, now)
  {
    hide FullerFailures, Since, Append, Events;
    FailuresFuller(a.failures, b.failures, user, now);
    assert |Since(Events(b.failures, user), now - cfg.window as real)| <= |Since(Events(a.failures, user), now - cfg.window as real)|;
  }

  lemma ForgivenFuller(a: map<UserId, seq<real>>, b: map<UserId, seq<real>>, user: UserId)
    requires FullerFailures(a, b)
    ensures FullerFailures(a - {user}, b - {user})
  {
    hide Fuller;
    assert Fuller([], []) by { NothingIsFuller(); }
    forall u ensures Fuller(Events(a - {user}, u), Events(b - {user}, u)) {
      assert Fuller(Events(a, u), Events(b, u));
    }
  }

  lemma NothingIsFuller()
    ensures Fuller([], [])
  {
  }

  lemma ForgivenBoth(cfg: Config, a: Guard, b: Guard, user: UserId, since: real, now: real)
    requires FullerGuard(cfg, a, b, since) && since <= now
    ensures FullerGuard(cfg, Guard(a.failures - {user}, a.locks), Guard(b.failures - {user}, b.locks), now)
    ensures FullerGuard(cfg, Guard(a.failures - {user}, a.locks - {user}), Guard(b.failures - {user}, b.locks - {user}), now)
  {
    hide FullerFailures;
    ForgivenFuller(a.failures, b.failures, user);
  }

  lemma GuardLater(cfg: Config, a: Guard, b: Guard, since: real, now: real)
    requires FullerGuard(cfg, a, b, since) && since <= now
    ensures FullerGuard(cfg, a, b, now)
  {
    hide FullerFailures;
  }

  lemma LockedOut(g: Guard, user: UserId, now: real)
    ensures LockRefusal(g, user, now).Some? ==> Locked(LockRefusal(g, user, now).value)
  {
  }

  // -- Steps -----------------------------------------------------------------------

  lemma FullerMore(q: seq<real>, r: seq<real>, x: real)
    requires Fuller(q, r)
    ensures Fuller(q + [x], r) && Fuller(q + [x], r + [x])
  {
    forall cutoff ensures |Since(r, cutoff)| <= |Since(q + [x], cutoff)| && |Since(r + [x], cutoff)| <= |Since(q + [x], cutoff)| {
      SinceAppend(q, x, cutoff);
      SinceAppend(r, x, cutoff);
      assert |Since(r, cutoff)| <= |Since(q, cutoff)|;
    }
  }

  lemma RememberedEvents(l: Limits, r: Request, now: real)
    ensures
      var after := Remembered(l, r, now);
      && (forall key :: Events(after.destinationSends, key)
            == if r.destination.Some? && key == (r.channel, r.destination.value) then Events(l.destinationSends, key) + [now] else Events(l.destinationSends, key))
      && (forall key :: Events(after.addressSends, key)
            == if r.address.Some? && key == r.address.value then Events(l.addressSends, key) + [now] else Events(l.addressSends, key))
  {
  }

  lemma WindowsRecorded(a: Limits, b: Limits, r: Request, now: real)
    requires FullerWindows(a, b)
    ensures FullerWindows(Remembered(a, r, now), Remembered(b, r, now)) && FullerWindows(Remembered(a, r, now), b)
  {
    var x, y := Remembered(a, r, now), Remembered(b, r, now);
    RememberedEvents(a, r, now);
    RememberedEvents(b, r, now);
    hide Remembered, Fuller;
    forall d
      ensures Fuller(Events(x.destinationSends, d), Events(y.destinationSends, d))
      ensures Fuller(Events(x.destinationSends, d), Events(b.destinationSends, d))
    {
      assert Fuller(Events(a.destinationSends, d), Events(b.destinationSends, d));
      FullerMore(Events(a.destinationSends, d), Events(b.destinationSends, d), now);
    }
    forall d
      ensures Fuller(Events(x.addressSends, d), Events(y.addressSends, d))
      ensures Fuller(Events(x.addressSends, d), Events(b.addressSends, d))
    {
      assert Fuller(Events(a.addressSends, d), Events(b.addressSends, d));
      FullerMore(Events(a.addressSends, d), Events(b.addressSends, d), now);
    }
  }

  lemma SameRecorded(side: Side, a: Limits, b: Limits, r: Request, now: real)
    requires SameLimits(side, a, b)
    ensures SameLimits(side, Remembered(a, r, now), Remembered(b, r, now))
  {
    var x, y := Remembered(a, r, now), Remembered(b, r, now);
    RememberedOf(a, r, now);
    RememberedOf(b, r, now);
    WindowsRecorded(a, b, r, now);
    hide Remembered, Fuller;
    forall user ensures Of(x.sends, (side.group, user)) == Of(y.sends, (side.group, user)) {
      assert Of(a.sends, (side.group, user)) == Of(b.sends, (side.group, user));
    }
    forall d | d in side.destinations ensures Of(x.destinationSends, d) == Of(y.destinationSends, d) {
      assert Of(a.destinationSends, d) == Of(b.destinationSends, d);
    }
    forall d | d in side.addresses ensures Of(x.addressSends, d) == Of(y.addressSends, d) {
      assert Of(a.addressSends, d) == Of(b.addressSends, d);
    }
  }

  /** The other group's claim fills only what both use. */
  lemma OtherRecorded(side: Side, a: Limits, b: Limits, op: Operation, now: real)
    requires Mints(op) && !Ours(op, side) && KeepsApart(op, side) && SameLimits(side, a, b)
    ensures SameLimits(side, Remembered(a, RequestOf(op), now), b)
  {
    RememberedOf(a, RequestOf(op), now);
    WindowsRecorded(a, b, RequestOf(op), now);
    hide Remembered, Fuller;
  }

  /** What recording a request does, key by key. */
  lemma RememberedOf(l: Limits, r: Request, now: real)
    ensures
      var after, group := Remembered(l, r, now), GroupOf(r.purpose);
      && (forall key :: Of(after.lastSend, key) == if key == (group, r.user, r.channel) then Some(now) else Of(l.lastSend, key))
      && (forall key :: Of(after.sends, key) == if r.sendsMessage && key == (group, r.user) then Some(Events(l.sends, key) + [now]) else Of(l.sends, key))
      && (forall key :: Of(after.destinationSends, key) ==
            if r.destination.Some? && key == (r.channel, r.destination.value) then Some(Events(l.destinationSends, key) + [now]) else Of(l.destinationSends, key))
      && (forall key :: Of(after.addressSends, key) ==
            if r.address.Some? && key == r.address.value then Some(Events(l.addressSends, key) + [now]) else Of(l.addressSends, key))
      && after.addressRequests == l.addressRequests
  {
  }

  /** A call of our own is answered alike and leaves alike stores. */
  ghost predicate Agrees(side: Side, o: Outcome, r: Outcome) {
    o.answer == r.answer && Same(side, o.state, r.state) && Tidy(side, o.state.codes) && Tidy(side, r.state.codes)
  }

  lemma OurClaim(cfg: Config, side: Side, a: State, b: State, op: Operation, now: real)
    requires Mints(op) && Ours(op, side) && KeepsApart(op, side) && Same(side, a, b) && Tidy(side, a.codes) && Tidy(side, b.codes)
    requires OwnRefusal(op, ReferenceClaim(cfg, a, op, now).answer, side) && !Locked(ReferenceClaim(cfg, a, op, now).answer)
    requires FullerGuard(cfg, a.guard, b.guard, now) && now >= 0.0
    ensures Agrees(side, ReferenceClaim(cfg, a, op, now), ReferenceClaim(cfg, b, op, now))
  {
    ClaimUnlocked(cfg, a, b, op, now);
    ClaimIsTidy(cfg, side, a, op, now);
    ClaimIsTidy(cfg, side, b, op, now);
    hide FullerGuard, View, LockRefusal, ClaimRefusal, Remembered, SameLimits, Tidy, OnSide, Minted, OwnRefusal;
    SameClaimRefusal(cfg, side, a, b, op, now);
    SameRecorded(side, a.limits, b.limits, RequestOf(op), now);
  }

  lemma ClaimIsTidy(cfg: Config, side: Side, a: State, op: Operation, now: real)
    requires Mints(op) && KeepsApart(op, side) && Tidy(side, a.codes)
    ensures Tidy(side, ReferenceClaim(cfg, a, op, now).state.codes)
  {
    hide View, ClaimRefusal, Remembered;
    TidySome(side, a.codes, ReferenceClaim(cfg, a, op, now).state.codes);
  }

  lemma NotLocked(cfg: Config, s: State, op: Operation, now: real)
    requires Mints(op) && !Locked(ReferenceClaim(cfg, s, op, now).answer)
    ensures op.ClaimTotp? ==> LockRefusal(GuardView(cfg, s.guard, now), op.user, now).None?
  {
    hide LimitsView, GuardView, Refusal;
  }

  lemma ClaimUnlocked(cfg: Config, a: State, b: State, op: Operation, now: real)
    requires Mints(op) && !Locked(ReferenceClaim(cfg, a, op, now).answer) && FullerGuard(cfg, a.guard, b.guard, now) && now >= 0.0
    ensures op.ClaimTotp? ==>
      LockRefusal(GuardView(cfg, a.guard, now), op.user, now).None? && LockRefusal(GuardView(cfg, b.guard, now), op.user, now).None?
  {
    hide ReferenceClaim, FullerGuard, GuardView;
    NotLocked(cfg, a, op, now);
    if op.ClaimTotp? {
      UnlockedToo(cfg, a.guard, b.guard, op.user, now, now);
    }
  }

  lemma OtherClaim(cfg: Config, side: Side, a: State, b: State, op: Operation, now: real)
    requires Mints(op) && !Ours(op, side) && KeepsApart(op, side) && Same(side, a, b) && Tidy(side, a.codes)
    ensures var o := ReferenceClaim(cfg, a, op, now); Same(side, o.state, b) && Tidy(side, o.state.codes)
  {
    ClaimIsTidy(cfg, side, a, op, now);
    hide View, ClaimRefusal, Remembered, SameLimits, Tidy, OnSide, Minted;
    OtherRecorded(side, a.limits, b.limits, op, now);
  }

  lemma ClearedOf(live: map<ChallengeId, Challenge>, user: UserId, purpose: Option<Purpose>, id: ChallengeId)
    ensures Of(ClearUser(live, user, purpose), id) ==
      if id in live && OtherThan(user, purpose)(live[id]) then Some(live[id]) else None
  {
  }

  /** What a commit does, id by id. */
  lemma CommittedOf(codes: Codes, now: real, id: ChallengeId, supersedes: Option<ChallengeId>)
    ensures
      var after := ReferenceCommit(codes, now, id, supersedes);
      && (forall k :: Of(after.pending, k) == if k == id then None else Of(codes.pending, k))
      && if Commits(PruneCodes(codes, now), id, supersedes) then
           var c := codes.pending[id];
           forall k :: Of(after.live, k) ==
             if k == id then Some(c)
             else if k in codes.live && OtherThan(c.user, Some(c.purpose))(codes.live[k]) then Some(codes.live[k]) else None
         else after.live == codes.live
  {
    hide PruneCodes;
    CommitsWhat(codes, now, id, supersedes);
  }

  lemma CommitsWhat(codes: Codes, now: real, id: ChallengeId, supersedes: Option<ChallengeId>)
    ensures Commits(PruneCodes(codes, now), id, supersedes) ==> Commits(codes, id, supersedes) && PruneCodes(codes, now).pending[id] == codes.pending[id]
    ensures Commits(PruneCodes(codes, now), id, supersedes) <==>
      Of(codes.pending, id).Some? && Of(codes.pending, id).value.expiresAt > now
      && (supersedes.Some? ==> Of(codes.live, supersedes.value).Some? && Of(codes.live, supersedes.value).value.expiresAt > now)
  {
  }

  lemma CommitIsTidy(side: Side, codes: Codes, now: real, id: ChallengeId, supersedes: Option<ChallengeId>)
    requires Tidy(side, codes)
    ensures Tidy(side, ReferenceCommit(codes, now, id, supersedes))
  {
    CommitsWhat(codes, now, id, supersedes);
    CommittedOf(codes, now, id, supersedes);
    TidyHas(side, codes, id);
    hide PruneCodes, Commits, ReferenceCommit;
    TidySome(side, codes, ReferenceCommit(codes, now, id, supersedes));
  }

  lemma OurCommit(cfg: Config, side: Side, a: State, b: State, op: Operation, now: real)
    requires op.Commit? && Ours(op, side) && KeepsApart(op, side) && Same(side, a, b) && Tidy(side, a.codes) && Tidy(side, b.codes)
    ensures Agrees(side, ReferenceStep(cfg, a, op, now), ReferenceStep(cfg, b, op, now))
  {
    CommitIsTidy(side, a.codes, now, op.id, op.supersedes);
    CommitIsTidy(side, b.codes, now, op.id, op.supersedes);
    hide SameLimits, PruneCodes, Commits, ReferenceCommit, Tidy, OnSide;
    var id := op.id;
    assert Of(a.codes.pending, id) == Of(b.codes.pending, id);
    if op.supersedes.Some? {
      assert Of(a.codes.live, op.supersedes.value) == Of(b.codes.live, op.supersedes.value);
    }
    CommitsWhat(a.codes, now, id, op.supersedes);
    CommitsWhat(b.codes, now, id, op.supersedes);
    CommittedOf(a.codes, now, id, op.supersedes);
    CommittedOf(b.codes, now, id, op.supersedes);
    if Commits(PruneCodes(a.codes, now), id, op.supersedes) {
      SameCleared(side, a.codes, b.codes, id);
    }
  }

  lemma SameCleared(side: Side, a: Codes, b: Codes, id: ChallengeId)
    requires SameCodes(side, a, b) && id in side.ids && id in a.pending
    ensures id in b.pending && a.pending[id] == b.pending[id]
    ensures forall k :: k in side.ids ==> (k in a.live <==> k in b.live) && (k in a.live ==> a.live[k] == b.live[k])
  {
    assert Of(a.pending, id) == Of(b.pending, id);
    forall k | k in side.ids ensures (k in a.live <==> k in b.live) && (k in a.live ==> a.live[k] == b.live[k]) {
      assert Of(a.live, k) == Of(b.live, k);
    }
  }

  lemma OtherCommit(cfg: Config, side: Side, a: State, b: State, op: Operation, now: real)
    requires op.Commit? && !Ours(op, side) && KeepsApart(op, side) && Same(side, a, b) && Tidy(side, a.codes)
    ensures var o := ReferenceStep(cfg, a, op, now); Same(side, o.state, b) && Tidy(side, o.state.codes)
  {
    hide SameLimits, PruneCodes, Commits, ReferenceCommit;
    CommitsWhat(a.codes, now, op.id, op.supersedes);
    CommittedOf(a.codes, now, op.id, op.supersedes);
    assert Of(a.codes.pending, op.id).Some? ==> OnSide(side, op.id, Of(a.codes.pending, op.id).value);
    forall k ensures Of(a.codes.live, k).Some? ==> OnSide(side, k, Of(a.codes.live, k).value) {
    }
  }

  lemma FoundOf(codes: Codes, id: ChallengeId, now: real)
    ensures Find(PruneCodes(codes, now), id) ==
      match Of(codes.pending, id)
      case Some(c) => (if c.expiresAt > now then Some(c) else Valid(codes, id, now))
      case None => Valid(codes, id, now)
  {
  }

  function Valid(codes: Codes, id: ChallengeId, now: real): Option<Challenge> {
    match Of(codes.live, id)
    case Some(c) => if c.expiresAt > now then Some(c) else None
    case None => None
  }

  lemma SameCooldowns(side: Side, a: Limits, b: Limits, key: (LimitGroup, UserId, Channel))
    requires SameLimits(side, a, b)
    ensures SameLimits(side, a.(lastSend := a.lastSend - {key}), b.(lastSend := b.lastSend - {key}))
    ensures key.0 != side.group ==> SameLimits(side, a.(lastSend := a.lastSend - {key}), b)
  {
    hide Fuller;
    assert forall user, channel :: Of(a.lastSend, (side.group, user, channel)) == Of(b.lastSend, (side.group, user, channel));
  }

  lemma OurDiscard(cfg: Config, side: Side, a: State, b: State, op: Operation, now: real)
    requires op.Discard? && Ours(op, side) && Same(side, a, b) && Tidy(side, a.codes) && Tidy(side, b.codes)
    ensures Agrees(side, ReferenceStep(cfg, a, op, now), ReferenceStep(cfg, b, op, now))
  {
    DiscardIsTidy(side, a, op.id, op.user, now);
    DiscardIsTidy(side, b, op.id, op.user, now);
    hide Tidy, OnSide, PruneCodes, Find, SameLimits;
    FoundOf(a.codes, op.id, now);
    FoundOf(b.codes, op.id, now);
    assert Of(a.codes.pending, op.id) == Of(b.codes.pending, op.id) && Of(a.codes.live, op.id) == Of(b.codes.live, op.id);
    match Find(PruneCodes(a.codes, now), op.id)
    case None =>
    case Some(c) => SameCooldowns(side, a.limits, b.limits, (GroupOf(c.purpose), op.user, c.channel));
  }

  lemma DiscardIsTidy(side: Side, a: State, id: ChallengeId, user: UserId, now: real)
    requires Tidy(side, a.codes)
    ensures Tidy(side, ReferenceDiscard(a, now, id, user).codes)
  {
    hide PruneCodes, Find;
    TidySome(side, a.codes, ReferenceDiscard(a, now, id, user).codes);
  }

  lemma OtherDiscard(cfg: Config, side: Side, a: State, b: State, op: Operation, now: real)
    requires op.Discard? && !Ours(op, side) && Same(side, a, b) && Tidy(side, a.codes)
    ensures var o := ReferenceStep(cfg, a, op, now); Same(side, o.state, b) && Tidy(side, o.state.codes)
  {
    DiscardIsTidy(side, a, op.id, op.user, now);
    hide PruneCodes, Find, Tidy, SameLimits;
    FoundOf(a.codes, op.id, now);
    TidyHas(side, a.codes, op.id);
    match Find(PruneCodes(a.codes, now), op.id)
    case None =>
    case Some(c) => SameCooldowns(side, a.limits, b.limits, (GroupOf(c.purpose), op.user, c.channel));
  }

  lemma TidyHas(side: Side, codes: Codes, id: ChallengeId)
    requires Tidy(side, codes)
    ensures Of(codes.pending, id).Some? ==> OnSide(side, id, Of(codes.pending, id).value)
    ensures Of(codes.live, id).Some? ==> OnSide(side, id, Of(codes.live, id).value)
  {
  }

  lemma LookupOf(codes: Codes, id: ChallengeId, purpose: Purpose, now: real)
    ensures Lookup(PruneCodes(codes, now), id, purpose) ==
      match Of(codes.live, id)
      case Some(c) => if c.expiresAt > now && c.purpose == purpose then Some(c) else None
      case None => None
    ensures Lookup(PruneCodes(codes, now), id, purpose).Some? ==> PruneCodes(codes, now).live[id] == Lookup(PruneCodes(codes, now), id, purpose).value
  {
  }

  /** One attempt spent, or the challenge used up. */
  lemma SpentOf(live: map<ChallengeId, Challenge>, id: ChallengeId, c: Challenge)
    ensures forall k :: k != id ==> Of(AttemptSpent(live, id, c), k) == Of(live, k) && Of(live - {id}, k) == Of(live, k)
    ensures Of(AttemptSpent(live, id, c), id) == if c.attemptsLeft <= 1 then None else Some(c.(attemptsLeft := c.attemptsLeft - 1))
    ensures Of(live - {id}, id) == None
  {
  }

  /** What a verification comes to, from what it finds and whether the user is locked. */
  lemma VerifyParts(cfg: Config, s: State, op: Operation, now: real)
    requires op.Verify?
    ensures
      var o, found := ReferenceVerify(cfg, s, op, now), Lookup(PruneCodes(s.codes, now), op.id, op.purpose);
      match found
      case None => o == Outcome(s, Gone)
      case Some(c) =>
        if op.expectedUser.Some? && c.user != op.expectedUser.value then o == Outcome(s, Gone)
        else if c.channel == Totp && LockRefusal(GuardView(cfg, s.guard, now), c.user, now).Some? then
          o == Outcome(s, LockRefusal(GuardView(cfg, s.guard, now), c.user, now).value)
        else match Judge(c, op.id, op.code, op.validator)
          case Raises => o == Outcome(s, Unavailable)
          case Wrong =>
            o == Outcome(State(Codes(AttemptSpent(s.codes.live, op.id, c), s.codes.pending), s.limits,
                               if c.channel == Totp then ReferenceFailure(cfg, s.guard, c.user, now) else s.guard), WrongCode)
          case Right => o == Outcome(AfterRight(s, op.id, c), Verified(c))
  {
    hide LimitsView, GuardView, LockRefusal, Judge, AttemptSpent, ReferenceFailure;
    LookupOf(s.codes, op.id, op.purpose, now);
    hide PruneCodes;
  }

  lemma OurVerify(cfg: Config, side: Side, a: State, b: State, op: Operation, now: real)
    requires op.Verify? && Ours(op, side) && Same(side, a, b) && Tidy(side, a.codes) && Tidy(side, b.codes)
    requires !Locked(ReferenceVerify(cfg, a, op, now).answer) && FullerGuard(cfg, a.guard, b.guard, now) && now >= 0.0
    ensures var o, r := ReferenceVerify(cfg, a, op, now), ReferenceVerify(cfg, b, op, now);
      Agrees(side, o, r) && FullerGuard(cfg, o.state.guard, r.state.guard, now)
  {
    VerifyTidy(cfg, side, a, op, now);
    VerifyTidy(cfg, side, b, op, now);
    SameLookup(side, a.codes, b.codes, op.id, op.purpose, now);
    VerifyParts(cfg, a, op, now);
    VerifyParts(cfg, b, op, now);
    hide ReferenceVerify, PruneCodes, Lookup, GuardView, Judge, AttemptSpent, ReferenceFailure, SameLimits, SameCodes, Tidy;
    hide FullerGuard, LockRefusal;
    match Lookup(PruneCodes(a.codes, now), op.id, op.purpose)
    case None =>
    case Some(c) =>
      SameSpent(side, a.codes, b.codes, op.id, c);
      LockedOut(GuardView(cfg, a.guard, now), c.user, now);
      if LockRefusal(GuardView(cfg, a.guard, now), c.user, now).None? {
        UnlockedToo(cfg, a.guard, b.guard, c.user, now, now);
      }
      FailureIsFuller(cfg, a.guard, b.guard, c.user, now, now);
      ForgivenBoth(cfg, a.guard, b.guard, c.user, now, now);
  }

  lemma SameLookup(side: Side, a: Codes, b: Codes, id: ChallengeId, purpose: Purpose, now: real)
    requires SameCodes(side, a, b) && Tidy(side, a) && Tidy(side, b) && GroupOf(purpose) == side.group
    ensures Lookup(PruneCodes(a, now), id, purpose) == Lookup(PruneCodes(b, now), id, purpose)
  {
    LookupOf(a, id, purpose, now);
    LookupOf(b, id, purpose, now);
    TidyHas(side, a, id);
    TidyHas(side, b, id);
    hide PruneCodes, Lookup, Tidy;
    assert id in side.ids ==> Of(a.live, id) == Of(b.live, id);
  }

  lemma SameSpent(side: Side, a: Codes, b: Codes, id: ChallengeId, c: Challenge)
    requires SameCodes(side, a, b)
    ensures SameCodes(side, Codes(AttemptSpent(a.live, id, c), a.pending), Codes(AttemptSpent(b.live, id, c), b.pending))
    ensures SameCodes(side, Codes(a.live - {id}, a.pending), Codes(b.live - {id}, b.pending))
  {
    SpentOf(a.live, id, c);
    SpentOf(b.live, id, c);
    hide AttemptSpent;
    forall k | k in side.ids
      ensures Of(AttemptSpent(a.live, id, c), k) == Of(AttemptSpent(b.live, id, c), k) && Of(a.live - {id}, k) == Of(b.live - {id}, k)
      ensures Of(a.pending, k) == Of(b.pending, k)
    {
      assert Of(a.live, k) == Of(b.live, k);
    }
  }

  lemma VerifyTidy(cfg: Config, side: Side, a: State, op: Operation, now: real)
    requires op.Verify? && Tidy(side, a.codes)
    ensures Tidy(side, ReferenceVerify(cfg, a, op, now).state.codes)
  {
    VerifyParts(cfg, a, op, now);
    LookupOf(a.codes, op.id, op.purpose, now);
    hide ReferenceVerify, PruneCodes, Lookup, LockRefusal, GuardView, Judge, AttemptSpent, ReferenceFailure, Tidy;
    match Lookup(PruneCodes(a.codes, now), op.id, op.purpose)
    case None =>
    case Some(c) => VerifyIsTidy(side, a.codes, op.id, c);
  }

  lemma VerifyIsTidy(side: Side, codes: Codes, id: ChallengeId, c: Challenge)
    requires Tidy(side, codes) && Of(codes.live, id) == Some(c)
    ensures Tidy(side, Codes(AttemptSpent(codes.live, id, c), codes.pending)) && Tidy(side, Codes(codes.live - {id}, codes.pending))
  {
    SpentOf(codes.live, id, c);
    assert OnSide(side, id, Of(codes.live, id).value);
    hide AttemptSpent;
    TidySome(side, codes, Codes(AttemptSpent(codes.live, id, c), codes.pending));
    TidySome(side, codes, Codes(codes.live - {id}, codes.pending));
  }

  lemma OtherVerify(cfg: Config, side: Side, a: State, b: State, op: Operation, now: real)
    requires op.Verify? && !Ours(op, side) && Same(side, a, b) && Tidy(side, a.codes)
    requires FullerGuard(cfg, a.guard, b.guard, now) && !Forgives(op, ReferenceVerify(cfg, a, op, now).answer)
    ensures var o := ReferenceVerify(cfg, a, op, now); Same(side, o.state, b) && Tidy(side, o.state.codes) && FullerGuard(cfg, o.state.guard, b.guard, now)
  {
    VerifyParts(cfg, a, op, now);
    LookupOf(a.codes, op.id, op.purpose, now);
    hide ReferenceVerify, PruneCodes, Lookup, LockRefusal, GuardView, Judge, AttemptSpent, ReferenceFailure, SameLimits, FullerFailures;
    match Lookup(PruneCodes(a.codes, now), op.id, op.purpose)
    case None =>
    case Some(c) =>
      assert OnSide(side, op.id, Of(a.codes.live, op.id).value);
      SpentOf(a.codes.live, op.id, c);
      VerifyIsTidy(side, a.codes, op.id, c);
      FailureIsFuller(cfg, a.guard, b.guard, c.user, now, now);
      hide Tidy, OnSide, FullerGuard;
  }

  lemma OurInvalidate(side: Side, a: State, b: State, user: UserId)
    requires Same(side, a, b) && Tidy(side, a.codes) && Tidy(side, b.codes)
    ensures Same(side, InvalidateStep(a, user), InvalidateStep(b, user))
    ensures Tidy(side, InvalidateStep(a, user).codes) && Tidy(side, InvalidateStep(b, user).codes)
  {
    InvalidateIsTidy(side, a, user);
    InvalidateIsTidy(side, b, user);
    hide Tidy, SameLimits, ClearUser;
    var x, y := InvalidateStep(a, user), InvalidateStep(b, user);
    forall id | id in side.ids ensures Of(x.codes.live, id) == Of(y.codes.live, id) {
      ClearedOf(a.codes.live, user, None, id);
      ClearedOf(b.codes.live, user, None, id);
      assert Of(a.codes.live, id) == Of(b.codes.live, id);
    }
    assert forall id :: id in side.ids ==> Of(a.codes.pending, id) == Of(b.codes.pending, id);
  }

  lemma InvalidateIsTidy(side: Side, a: State, user: UserId)
    requires Tidy(side, a.codes)
    ensures Tidy(side, InvalidateStep(a, user).codes)
  {
    hide ClearUser;
    forall id ensures Of(ClearUser(a.codes.live, user, None), id).Some? ==> Of(ClearUser(a.codes.live, user, None), id) == Of(a.codes.live, id) {
      ClearedOf(a.codes.live, user, None, id);
    }
    TidySome(side, a.codes, InvalidateStep(a, user).codes);
  }

  lemma OurRead(cfg: Config, side: Side, a: State, b: State, op: Operation, now: real)
    requires op.RequireLive? && Ours(op, side) && Same(side, a, b) && Tidy(side, a.codes) && Tidy(side, b.codes)
    ensures Agrees(side, ReferenceStep(cfg, a, op, now), ReferenceStep(cfg, b, op, now))
  {
    LookupOf(a.codes, op.id, op.purpose, now);
    LookupOf(b.codes, op.id, op.purpose, now);
    assert op.id in side.ids ==> Of(a.codes.live, op.id) == Of(b.codes.live, op.id);
    assert Of(a.codes.live, op.id).Some? ==> OnSide(side, op.id, Of(a.codes.live, op.id).value);
    assert Of(b.codes.live, op.id).Some? ==> OnSide(side, op.id, Of(b.codes.live, op.id).value);
    hide PruneCodes, Lookup, SameLimits;
  }

  lemma OurStep(cfg: Config, side: Side, a: State, b: State, op: Operation, now: real)
    requires Ours(op, side) && KeepsApart(op, side) && Same(side, a, b) && Tidy(side, a.codes) && Tidy(side, b.codes)
    requires OwnRefusal(op, ReferenceStep(cfg, a, op, now).answer, side) && !Locked(ReferenceStep(cfg, a, op, now).answer)
    requires FullerGuard(cfg, a.guard, b.guard, now) && now >= 0.0
    ensures Agrees(side, ReferenceStep(cfg, a, op, now), ReferenceStep(cfg, b, op, now))
    ensures FullerGuard(cfg, ReferenceStep(cfg, a, op, now).state.guard, ReferenceStep(cfg, b, op, now).state.guard, now)
  {
    if !op.Verify? && !op.Invalidate? {
      KeepsGuard(cfg, a, op, now);
      KeepsGuard(cfg, b, op, now);
    }
    hide FullerGuard;
    match op
    case Commit(_, _) => OurCommit(cfg, side, a, b, op, now);
    case Discard(_, _) => OurDiscard(cfg, side, a, b, op, now);
    case RequireLive(_, _) => OurRead(cfg, side, a, b, op, now);
    case Verify(_, _, _, _, _) =>
      OurVerify(cfg, side, a, b, op, now);
      hide ReferenceVerify, Agrees;
    case ReserveRequest(_) => hide Tidy, SameCodes, WindowRefusal;
    case Invalidate(user) =>
      OurInvalidate(side, a, b, user);
      ForgivenBoth(cfg, a.guard, b.guard, user, now, now);
      hide Same, Tidy;
    case _ =>
      OurClaim(cfg, side, a, b, op, now);
      hide ReferenceClaim, Agrees;
  }

  lemma KeepsGuard(cfg: Config, s: State, op: Operation, now: real)
    requires !op.Verify? && !op.Invalidate?
    ensures ReferenceStep(cfg, s, op, now).state.guard == s.guard
  {
    hide ClaimRefusal, Remembered, WindowRefusal, Minted, Find, Commits;
  }

  lemma OtherStep(cfg: Config, side: Side, a: State, b: State, op: Operation, now: real)
    requires !Ours(op, side) && KeepsApart(op, side) && Same(side, a, b) && Tidy(side, a.codes)
    requires FullerGuard(cfg, a.guard, b.guard, now) && !Forgives(op, ReferenceStep(cfg, a, op, now).answer)
    ensures var o := ReferenceStep(cfg, a, op, now); Same(side, o.state, b) && Tidy(side, o.state.codes) && FullerGuard(cfg, o.state.guard, b.guard, now)
  {
    if !op.Verify? {
      KeepsGuard(cfg, a, op, now);
    }
    hide FullerGuard;
    match op
    case Commit(_, _) => OtherCommit(cfg, side, a, b, op, now);
    case Discard(_, _) => OtherDiscard(cfg, side, a, b, op, now);
    case Verify(_, _, _, _, _) =>
      OtherVerify(cfg, side, a, b, op, now);
      hide ReferenceVerify, Same, Tidy;
    case RequireLive(_, _) => hide Same, Tidy;
    case _ =>
      OtherClaim(cfg, side, a, b, op, now);
      hide ReferenceClaim, Same, Tidy;
  }

  // -- Every run -------------------------------------------------------------------

  /** Every call keeps to its side; no call of the group is refused by a window that the other
      may fill or by the lock, and the other group proves no authenticator. */
  predicate Undisturbed(cfg: Config, calls: seq<Call>, side: Side) {
    forall i :: 0 <= i < |calls| ==>
      KeepsApart(calls[i].op, side)
      && (if Ours(calls[i].op, side) then OwnRefusal(calls[i].op, AnswerTo(cfg, calls, i), side) && !Locked(AnswerTo(cfg, calls, i))
          else !Forgives(calls[i].op, AnswerTo(cfg, calls, i)))
  }

  /** The call settles what becomes of the challenge, or moves away from it. */
  predicate Settles(op: Operation, id: ChallengeId) {
    (op.Commit? && (op.id == id || op.supersedes == Some(id))) || (op.Discard? && op.id == id)
  }

  /** The later call comes in time for the challenge that the earlier one claimed. */
  predicate InTime(cfg: Config, claim: Call, call: Call) {
    Mints(claim.op) && Settles(call.op, claim.op.id) ==> Minted(cfg, claim.op, claim.at).expiresAt > call.at
  }

  /** The group's commits and discards come before their challenges expire. */
  predicate Prompt(cfg: Config, calls: seq<Call>, side: Side) {
    forall i, j :: 0 <= j < i < |calls| && Ours(calls[i].op, side) ==> InTime(cfg, calls[j], calls[i])
  }

  lemma OnlyNext(calls: seq<Call>, side: Side)
    requires calls != []
    ensures var n := |calls| - 1;
      Only(calls, side) == if Ours(calls[n].op, side) then Only(calls[..n], side) + [calls[n]] else Only(calls[..n], side)
  {
  }

  lemma ReferenceNext(cfg: Config, calls: seq<Call>, call: Call)
    ensures ReferenceAfter(cfg, calls + [call]) == ReferenceStep(cfg, ReferenceAfter(cfg, calls), call.op, call.at).state
    ensures ReferenceAnswer(cfg, calls + [call], |calls|) == ReferenceStep(cfg, ReferenceAfter(cfg, calls), call.op, call.at).answer
  {
    hide ReferenceStep;
    assert (calls + [call])[..|calls|] == calls;
  }

  /** What the run has to be: ordered in time, punctual, the group's calls prompt, and not
      disturbed. */
  predicate Comparable(cfg: Config, calls: seq<Call>, side: Side) {
    Timed(calls) && PunctualRun(cfg, calls) && Prompt(cfg, calls, side) && Undisturbed(cfg, calls, side)
  }

  lemma ComparableBefore(cfg: Config, calls: seq<Call>, side: Side, n: nat)
    requires n <= |calls| && Comparable(cfg, calls, side)
    ensures Comparable(cfg, calls[..n], side)
  {
    hide Ours, Undisturbed, PunctualRun, InTime;
    RunBefore(cfg, calls, n);
    UndisturbedBefore(cfg, calls, side, n);
  }

  lemma {:induction false} OnlyIn(calls: seq<Call>, side: Side)
    ensures forall call :: call in Only(calls, side) ==> call in calls && Ours(call.op, side)
  {
    hide Ours;
    if calls != [] {
      OnlyIn(calls[..|calls| - 1], side);
    }
  }

  lemma {:induction false} OnlyIsPrompt(cfg: Config, calls: seq<Call>, side: Side)
    requires Prompt(cfg, calls, side)
    ensures Prompt(cfg, Only(calls, side), side)
  {
    hide Ours, InTime;
    if calls != [] {
      var n := |calls| - 1;
      OnlyIsPrompt(cfg, calls[..n], side);
      OnlyIn(calls[..n], side);
      forall call | call in Only(calls[..n], side) && Ours(calls[n].op, side) ensures InTime(cfg, call, calls[n]) {
        var j :| 0 <= j < n && calls[..n][j] == call;
        assert calls[j] == call;
      }
    }
  }

  /** Prompt calls are punctual: what they find was claimed earlier in the run. */
  lemma PromptIsPunctual(cfg: Config, calls: seq<Call>, side: Side)
    requires Prompt(cfg, calls, side) && forall i :: 0 <= i < |calls| ==> Ours(calls[i].op, side)
    ensures PunctualRun(cfg, calls)
  {
    hide Ours, Step, After;
    forall i | 0 <= i < |calls| ensures Punctual(After(cfg, calls[..i]).codes, calls[i].op, calls[i].at) {
      var codes, op := After(cfg, calls[..i]).codes, calls[i].op;
      assert op.Commit? || op.Discard? ==> Settles(op, op.id);
      assert op.Commit? && op.supersedes.Some? ==> Settles(op, op.supersedes.value);
      forall id | id in codes.pending && Settles(op, id) ensures codes.pending[id].expiresAt > calls[i].at {
        var claimed := PendingOrigin(cfg, calls[..i], id);
        assert InTime(cfg, calls[claimed], calls[i]);
      }
      forall id | id in codes.live && Settles(op, id) ensures codes.live[id].expiresAt > calls[i].at {
        var claimed, committed := LiveOrigin(cfg, calls[..i], id);
        assert InTime(cfg, calls[claimed], calls[i]);
      }
    }
  }

  lemma OnlyIsPunctual(cfg: Config, calls: seq<Call>, side: Side)
    requires Comparable(cfg, calls, side)
    ensures PunctualRun(cfg, Only(calls, side))
  {
    hide Ours, PunctualRun, Undisturbed, Prompt;
    OnlyIsPrompt(cfg, calls, side);
    OnlyIn(calls, side);
    PromptIsPunctual(cfg, Only(calls, side), side);
  }

  lemma UndisturbedBefore(cfg: Config, calls: seq<Call>, side: Side, n: nat)
    requires n <= |calls| && Undisturbed(cfg, calls, side)
    ensures Undisturbed(cfg, calls[..n], side)
  {
    hide Ours, KeepsApart, OwnRefusal, Locked, Forgives, AnswerTo;
    RunBefore(cfg, calls, n);
    assert forall i :: 0 <= i < n ==> calls[..n][i] == calls[i];
  }

  lemma RunBefore(cfg: Config, calls: seq<Call>, n: nat)
    requires n <= |calls|
    ensures forall i :: 0 <= i < n ==> calls[..n][..i] == calls[..i]
    ensures forall i :: 0 <= i < n ==> AnswerTo(cfg, calls[..n], i) == AnswerTo(cfg, calls, i)
    ensures PunctualRun(cfg, calls) ==> PunctualRun(cfg, calls[..n])
  {
    hide Step, After, Punctual, Locked;
    assert forall i :: 0 <= i < n ==> calls[..n][..i] == calls[..i] && calls[..n][i] == calls[i];
    assert forall i :: 0 <= i < n ==> AnswerTo(cfg, calls[..n], i) == AnswerTo(cfg, calls, i);
  }

  lemma {:induction false} OnlySubset(calls: seq<Call>, side: Side, now: real)
    requires Timed(calls) && Until(calls, now)
    ensures Timed(Only(calls, side)) && Until(Only(calls, side), now)
  {
    if calls != [] {
      var n := |calls| - 1;
      OnlySubset(calls[..n], side, calls[n].at);
    }
  }

  /** The last call of a run, seen by the reference stores of the run and of its part. */
  lemma LastAgrees(cfg: Config, calls: seq<Call>, side: Side)
    requires calls != [] && Comparable(cfg, calls, side) && Ours(calls[|calls| - 1].op, side)
    requires
      var a, b := ReferenceAfter(cfg, calls[..|calls| - 1]), ReferenceAfter(cfg, Only(calls[..|calls| - 1], side));
      Same(side, a, b) && Tidy(side, a.codes) && Tidy(side, b.codes) && FullerGuard(cfg, a.guard, b.guard, calls[|calls| - 1].at)
    ensures
      var n, before := |calls| - 1, Only(calls[..|calls| - 1], side);
      var a, b := ReferenceAfter(cfg, calls[..n]), ReferenceAfter(cfg, before);
      var o, r := ReferenceStep(cfg, a, calls[n].op, calls[n].at), ReferenceStep(cfg, b, calls[n].op, calls[n].at);
      && Agrees(side, o, r) && FullerGuard(cfg, o.state.guard, r.state.guard, calls[n].at)
      && AnswerTo(cfg, calls, n) == Step(cfg, After(cfg, before), calls[n].op, calls[n].at).answer
  {
    hide Step, ReferenceStep, Same, Tidy, Agrees, Ours, KeepsApart, OwnRefusal, Locked, PunctualRun, Timed, FullerGuard, Prompt, Forgives;
    var n, last := |calls| - 1, calls[|calls| - 1];
    var before := Only(calls[..n], side);
    OnlyNext(calls, side);
    Ends(calls);
    OnlySubset(calls, side, last.at);
    OnlyIsPunctual(cfg, calls, side);
    PruningIsInvisible(cfg, calls, n);
    PruningIsInvisible(cfg, before + [last], |before|);
    ReferenceNext(cfg, before, last);
    assert KeepsApart(last.op, side) && OwnRefusal(last.op, AnswerTo(cfg, calls, n), side) && !Locked(AnswerTo(cfg, calls, n));
    OurStep(cfg, side, ReferenceAfter(cfg, calls[..n]), ReferenceAfter(cfg, before), last.op, last.at);
    AfterOne(cfg, before, last);
    SameAnswers(side, ReferenceStep(cfg, ReferenceAfter(cfg, calls[..n]), last.op, last.at), ReferenceStep(cfg, ReferenceAfter(cfg, before), last.op, last.at));
  }

  lemma SameAnswers(side: Side, o: Outcome, r: Outcome)
    requires Agrees(side, o, r)
    ensures o.answer == r.answer && Same(side, o.state, r.state) && Tidy(side, o.state.codes) && Tidy(side, r.state.codes)
  {
  }

  lemma Ends(calls: seq<Call>)
    requires calls != [] && Timed(calls)
    ensures Until(calls, calls[|calls| - 1].at) && calls[|calls| - 1].at >= 0.0
  {
  }

  lemma {:induction false} RunsAgree(cfg: Config, calls: seq<Call>, side: Side, now: real)
    requires Comparable(cfg, calls, side) && Until(calls, now)
    ensures
      var a, b := ReferenceAfter(cfg, calls), ReferenceAfter(cfg, Only(calls, side));
      Same(side, a, b) && Tidy(side, a.codes) && Tidy(side, b.codes) && FullerGuard(cfg, a.guard, b.guard, now)
  {
    hide ReferenceStep, Same, Tidy, Ours, KeepsApart, Comparable, Agrees, Step, FullerGuard, Forgives;
    if calls == [] {
      NothingIsSame(cfg, side, now);
    } else {
      var n := |calls| - 1;
      var before, last := calls[..n], calls[n];
      ComparableBefore(cfg, calls, side, n);
      RunsAgree(cfg, before, side, last.at) by { assert Until(before, last.at) by { BeforeLast(cfg, calls, side); } }
      OnlyNext(calls, side);
      KeptApart(cfg, calls, side);
      var a, b := ReferenceAfter(cfg, before), ReferenceAfter(cfg, Only(before, side));
      if Ours(last.op, side) {
        LastAgrees(cfg, calls, side);
        SameAnswers(side, ReferenceStep(cfg, a, last.op, last.at), ReferenceStep(cfg, b, last.op, last.at));
        ReferenceNext(cfg, Only(before, side), last);
      } else {
        OtherStep(cfg, side, a, b, last.op, last.at);
      }
      GuardLater(cfg, ReferenceAfter(cfg, calls).guard, ReferenceAfter(cfg, Only(calls, side)).guard, last.at, now);
    }
  }

  lemma BeforeLast(cfg: Config, calls: seq<Call>, side: Side)
    requires calls != [] && Comparable(cfg, calls, side)
    ensures Until(calls[..|calls| - 1], calls[|calls| - 1].at)
  {
    hide PunctualRun, Prompt, Undisturbed;
  }

  lemma NothingIsSame(cfg: Config, side: Side, now: real)
    ensures Same(side, EMPTY, EMPTY) && Tidy(side, EMPTY.codes) && FullerGuard(cfg, EMPTY.guard, EMPTY.guard, now)
  {
  }

  /** The last call keeps to its side; if it is the other group's, it forgives nobody. */
  lemma KeptApart(cfg: Config, calls: seq<Call>, side: Side)
    requires calls != [] && Comparable(cfg, calls, side)
    ensures KeepsApart(calls[|calls| - 1].op, side)
    ensures !Ours(calls[|calls| - 1].op, side) ==> !Forgives(calls[|calls| - 1].op, ReferenceAnswer(cfg, calls, |calls| - 1))
  {
    hide KeepsApart, Ours, OwnRefusal, Locked, AnswerTo, ReferenceAnswer, Forgives, PunctualRun, Prompt;
    PruningIsInvisible(cfg, calls, |calls| - 1);
  }

  /** One group's answers do not depend on the other group: over every punctual run in which
      the group's own commits and discards come in time, no call of the group is refused by a
      window that the other fills too or by the lock, and the other group proves no
      authenticator, each call is answered as if no call of the other group had ever been
      made. */
  lemma OtherGroupIsInvisible(cfg: Config, calls: seq<Call>, side: Side, i: nat)
    requires i < |calls| && Ours(calls[i].op, side) && Comparable(cfg, calls[..i + 1], side)
    ensures AnswerTo(cfg, calls, i) == Step(cfg, After(cfg, Only(calls[..i], side)), calls[i].op, calls[i].at).answer
  {
    hide Step, Same, Tidy, Ours, Agrees, Comparable, FullerGuard;
    var run := calls[..i + 1];
    assert run[..i] == calls[..i] && run[i] == calls[i];
    ComparableBefore(cfg, run, side, i);
    BeforeLast(cfg, run, side);
    RunsAgree(cfg, calls[..i], side, calls[i].at);
    LastAgrees(cfg, run, side);
  }

  /** Why the group's calls have to come in time: a commit at the moment the code expires is
      refused where a recovery request has looked at the store before, and accepted where none
      has. */
  lemma LateCommitIsVisible(cfg: Config, user: UserId, number: Address)
    ensures
      var side := Side(SignInGroup, {1}, {}, {});
      var claim, commit := Call(Texted(1, "123456", user, number), 0.0), Call(Commit(1, None), cfg.codeTtl as real);
      var calls := [claim, Call(RequireLive(2, PasswordReset), cfg.codeTtl as real), commit];
      && Only(calls, side) == [claim, commit] && AnswerTo(cfg, calls, 2) == Gone && AnswerTo(cfg, [claim, commit], 1) == Accepted
  {
    var claim, commit := Call(Texted(1, "123456", user, number), 0.0), Call(Commit(1, None), cfg.codeTtl as real);
    var look := Call(RequireLive(2, PasswordReset), cfg.codeTtl as real);
    OnlyOurs(claim, look, commit, Side(SignInGroup, {1}, {}, {}));
    assert Minted(cfg, claim.op, 0.0).expiresAt == cfg.codeTtl as real;
    hide Step, After, AnswerTo, Only, Ours, Timed, ReferenceAnswer, Minted;
    LateCommitIsAccepted(cfg, 1, "123456", user, number);
    ClaimedText(cfg, claim);
    assert [claim] + [look] == [claim, look] && [claim, look] + [commit] == [claim, look, commit];
    AfterOne(cfg, [claim], look);
    AfterOne(cfg, [claim, look], commit);
    ExpiredIsGone(cfg, After(cfg, [claim]), 1, Minted(cfg, claim.op, 0.0), 2, cfg.codeTtl as real);
  }

  lemma ClaimedText(cfg: Config, claim: Call)
    requires claim.op.Claim? && claim.op.destination.Some? && claim.at == 0.0
    requires claim.op == Texted(claim.op.id, claim.op.code, claim.op.user, claim.op.destination.value)
    ensures After(cfg, [claim]).codes == Codes(map[], map[claim.op.id := Minted(cfg, claim.op, 0.0)])
  {
    hide Step, Minted;
    FirstCall(cfg, claim, claim);
    assert [claim, claim][..1] == [claim];
    TextIsPending(cfg, claim.op.id, claim.op.code, claim.op.user, claim.op.destination.value);
  }

  lemma OnlyOurs(a: Call, b: Call, c: Call, side: Side)
    requires Ours(a.op, side) && !Ours(b.op, side) && Ours(c.op, side)
    ensures Only([a, b, c], side) == [a, c]
  {
    hide Ours;
    assert [a, b, c][..2] == [a, b] && [a, b][..1] == [a] && [a][..0] == [];
    assert Only([a], side) == [] + [a] && Only([a, b], side) == Only([a], side) + [];
  }

  lemma ExpiredIsGone(cfg: Config, s: State, id: ChallengeId, c: Challenge, other: ChallengeId, now: real)
    requires s.codes == Codes(map[], map[id := c]) && c.expiresAt <= now
    ensures Step(cfg, Step(cfg, s, RequireLive(other, PasswordReset), now).state, Commit(id, None), now).answer == Gone
  {
    hide PruneLimits, PruneGuard;
  }

  /** Why the windows are excepted: where one code fits into a destination's window, a recovery
      code takes its place, and the sign-in code that would have been sent without it is
      refused. */
  lemma SharedWindowIsVisible(cfg: Config, user: UserId, number: Address)
    requires cfg.perDestination == 1
    ensures
      var recovery := Call(Claim(1, "123456", user, PasswordReset, Sms, Some(number), None), 0.0);
      var signIn := Call(Claim(2, "654321", user, SignIn, Sms, Some(number), None), 0.0);
      && AnswerTo(cfg, [recovery, signIn], 1).Refused? && AnswerTo(cfg, [recovery, signIn], 1).limit == DestinationWindow
      && AnswerTo(cfg, [signIn], 0) == Issued(2)
  {
    var recovery := Call(Claim(1, "123456", user, PasswordReset, Sms, Some(number), None), 0.0);
    var signIn := Call(Claim(2, "654321", user, SignIn, Sms, Some(number), None), 0.0);
    TwoCalls(cfg, recovery, signIn);
    TwoCalls(cfg, signIn, recovery);
    FirstIsSent(cfg, recovery.op);
    FirstIsSent(cfg, signIn.op);
    hide Step, After, AnswerTo;
    SecondIsRefused(cfg, After(cfg, [recovery]), signIn.op);
  }

  lemma TwoCalls(cfg: Config, c: Call, d: Call)
    ensures After(cfg, [c]) == Step(cfg, EMPTY, c.op, c.at).state && AnswerTo(cfg, [c], 0) == Step(cfg, EMPTY, c.op, c.at).answer
    ensures AnswerTo(cfg, [c, d], 1) == Step(cfg, After(cfg, [c]), d.op, d.at).answer
  {
    assert After(cfg, []) == EMPTY;
    hide Step, After, AnswerTo;
    assert [] + [c] == [c] && [c] + [d] == [c, d];
    AfterOne(cfg, [], c);
    AfterOne(cfg, [c], d);
  }

  lemma FirstIsSent(cfg: Config, op: Operation)
    requires op.Claim? && op.destination.Some? && op.address.None?
    ensures var o := Step(cfg, EMPTY, op, 0.0);
      && o.answer == Issued(op.id) && o.state.limits.destinationSends == map[(op.channel, op.destination.value) := [0.0]]
      && o.state.limits.lastSend == map[(GroupOf(op.purpose), op.user, op.channel) := 0.0]
  {
    hide Minted;
    assert Prune(cfg, EMPTY, 0.0) == EMPTY;
    assert Since([], 0.0 - cfg.window as real) == [];
    assert Refusal(cfg, EMPTY.limits, RequestOf(op), 0.0).None?;
    var after := Recorded(cfg, EMPTY.limits, RequestOf(op), 0.0);
    assert [] + [0.0] == [0.0] && after.destinationSends == map[(op.channel, op.destination.value) := [0.0]];
  }

  lemma SecondIsRefused(cfg: Config, s: State, op: Operation)
    requires cfg.perDestination == 1 && op.Claim? && op.destination.Some?
    requires s.limits.destinationSends == map[(op.channel, op.destination.value) := [0.0]]
    requires (GroupOf(op.purpose), op.user, op.channel) !in s.limits.lastSend
    ensures var answer := Step(cfg, s, op, 0.0).answer; answer.Refused? && answer.limit == DestinationWindow
  {
    WindowStaysFull(cfg, s.limits, (op.channel, op.destination.value));
    hide Minted, Recorded, PruneCodes, PruneGuard, PruneLimits, WindowRefusal, AddressRefusal, DailyRefusal;
  }

  lemma WindowStaysFull(cfg: Config, l: Limits, d: (Channel, Address))
    requires l.destinationSends == map[d := [0.0]]
    ensures var pruned := PruneLimits(cfg, l, 0.0);
      && WindowRefusal(Events(pruned.destinationSends, d), 1, cfg.window, 0.0).Some?
      && forall key :: key !in l.lastSend ==> key !in pruned.lastSend
  {
    var cutoff := 0.0 - cfg.window as real;
    OneEvent(cutoff);
    hide Since, Dropped;
    assert d in l.destinationSends && l.destinationSends[d] == [0.0];
    assert Events(PruneEvents(l.destinationSends, cutoff), d) == [0.0];
  }

  lemma OneEvent(cutoff: real)
    requires cutoff <= 0.0
    ensures Since([0.0], cutoff) == [0.0] && Dropped([0.0], cutoff) == [0.0]
  {
    var q: seq<real> := [0.0];
    assert q[..0] == [] && Since(q[..0], cutoff) == [];
  }
}
