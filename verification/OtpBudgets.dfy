/** Budgets do not interfere: recovering a password leaves everything a sign-in draws on
    unchanged, and the other way round. */
module OtpBudgets {
  import opened Wrappers
  import opened Otp
  import opened OtpWindows
  import opened OtpLifecycle

  // -- What a group draws on -------------------------------------------------------

  function LiveIn(s: State, g: LimitGroup, now: real, id: ChallengeId): Option<Challenge> {
    if id in s.codes.live && GroupOf(s.codes.live[id].purpose) == g && s.codes.live[id].expiresAt > now
    then Some(s.codes.live[id]) else None
  }

  function PendingIn(s: State, g: LimitGroup, now: real, id: ChallengeId): Option<Challenge> {
    if id in s.codes.pending && GroupOf(s.codes.pending[id].purpose) == g && s.codes.pending[id].expiresAt > now
    then Some(s.codes.pending[id]) else None
  }

  function CooldownIn(cfg: Config, l: Limits, g: LimitGroup, now: real, user: UserId, channel: Channel): Option<real> {
    var key := (g, user, channel);
    if key in l.lastSend && now - l.lastSend[key] < cfg.cooldown as real then Some(l.lastSend[key]) else None
  }

  function DailyIn(l: Limits, g: LimitGroup, now: real, user: UserId): seq<real> {
    Dropped(Events(l.sends, (g, user)), now - DAY as real)
  }

  ghost predicate SameCodes(a: State, b: State, g: LimitGroup, now: real) {
    forall id :: LiveIn(a, g, now, id) == LiveIn(b, g, now, id) && PendingIn(a, g, now, id) == PendingIn(b, g, now, id)
  }

  ghost predicate SameAllowance(cfg: Config, a: Limits, b: Limits, g: LimitGroup, now: real) {
    && (forall user, channel :: CooldownIn(cfg, a, g, now, user, channel) == CooldownIn(cfg, b, g, now, user, channel))
    && forall user :: DailyIn(a, g, now, user) == DailyIn(b, g, now, user)
  }

  /** The group's codes, cooldowns and daily counts are the same. */
  ghost predicate SameBudget(cfg: Config, a: State, b: State, g: LimitGroup, now: real) {
    SameCodes(a, b, g, now) && SameAllowance(cfg, a.limits, b.limits, g, now)
  }

  /** The group a claim, commit or discard works for. */
  predicate WorksFor(s: State, op: Operation, g: LimitGroup) {
    match op
    case Commit(id, _) => id in s.codes.pending ==> GroupOf(s.codes.pending[id].purpose) == g
    case Discard(id, _) =>
      && (id in s.codes.pending ==> GroupOf(s.codes.pending[id].purpose) == g)
      && (id in s.codes.live ==> GroupOf(s.codes.live[id].purpose) == g)
    case _ => Mints(op) && GroupOf(op.purpose) == g && !Holds(s.codes, op.id)
  }

  lemma PruneSameBudget(cfg: Config, s: State, g: LimitGroup, now: real)
    ensures SameBudget(cfg, Prune(cfg, s, now), s, g, now)
  {
    PruneSameCodes(cfg, s, g, now);
    PruneSameCooldowns(cfg, s.limits, g, now);
    hide Dropped, DailyIn, CooldownIn, SameCodes, PruneLimits;
    forall user ensures DailyIn(PruneLimits(cfg, s.limits, now), g, now, user) == DailyIn(s.limits, g, now, user) {
      PruneDaily(cfg, s.limits, g, now, user);
    }
  }

  lemma PruneSameCodes(cfg: Config, s: State, g: LimitGroup, now: real)
    ensures SameCodes(Prune(cfg, s, now), s, g, now)
  {
    hide PruneLimits, PruneGuard;
  }

  lemma PruneSameCooldowns(cfg: Config, l: Limits, g: LimitGroup, now: real)
    ensures forall user, channel ::
      CooldownIn(cfg, PruneLimits(cfg, l, now), g, now, user, channel) == CooldownIn(cfg, l, g, now, user, channel)
  {
    hide PruneEvents;
  }

  lemma PruneDaily(cfg: Config, l: Limits, g: LimitGroup, now: real, user: UserId)
    ensures DailyIn(PruneLimits(cfg, l, now), g, now, user) == DailyIn(l, g, now, user)
  {
    PruneStores(cfg, l, now, Daily(g, user));
    DroppedTwice(Events(l.sends, (g, user)), now - DAY as real);
    hide Dropped, PruneLimits;
  }

  lemma RecordedAllowance(cfg: Config, l: Limits, r: Request, g: LimitGroup, now: real)
    requires GroupOf(r.purpose) != g
    ensures SameAllowance(cfg, Recorded(cfg, l, r, now), l, g, now)
  {
    hide Push, Append, Dropped;
  }

  lemma ClaimSameBudget(cfg: Config, p: State, op: Operation, g: LimitGroup, now: real)
    requires Mints(op) && GroupOf(op.purpose) != g && !Holds(p.codes, op.id)
    ensures SameBudget(cfg, ClaimStep(cfg, p, op, now).state, p, g, now)
  {
    hide Recorded, ClaimRefusal, SameAllowance;
    AllowanceRefl(cfg, p.limits, g, now);
    if !Unthrottled(op) {
      RecordedAllowance(cfg, p.limits, RequestOf(op), g, now);
    }
  }

  lemma AllowanceRefl(cfg: Config, l: Limits, g: LimitGroup, now: real)
    ensures SameAllowance(cfg, l, l, g, now)
  {
  }

  /** A claim, commit or discard of one group leaves the other group's live and pending
      codes, cooldowns and daily counts as they were. */
  lemma OtherGroupUnchanged(cfg: Config, s: State, op: Operation, own: LimitGroup, g: LimitGroup, now: real)
    requires Consistent(cfg, s.codes) && WorksFor(s, op, own) && g != own
    ensures SameBudget(cfg, Step(cfg, s, op, now).state, s, g, now)
  {
    match op
    case Commit(_, _) => CommitSameBudget(cfg, s, op, own, g, now);
    case Discard(_, _) => DiscardSameBudget(cfg, s, op, own, g, now);
    case _ =>
      hide SameBudget, ClaimStep, Prune;
      PruneSameBudget(cfg, s, g, now);
      PruneKeeps(cfg, s, now);
      ClaimSameBudget(cfg, Prune(cfg, s, now), op, g, now);
      BudgetJoins(cfg, Step(cfg, s, op, now).state, Prune(cfg, s, now), s, g, now);
  }

  lemma CommitSameBudget(cfg: Config, s: State, op: Operation, own: LimitGroup, g: LimitGroup, now: real)
    requires op.Commit? && Consistent(cfg, s.codes) && WorksFor(s, op, own) && g != own
    ensures SameBudget(cfg, Step(cfg, s, op, now).state, s, g, now)
  {
    hide SameAllowance;
    AllowanceRefl(cfg, s.limits, g, now);
    assert op.id in s.codes.pending ==> op.id !in s.codes.live;
  }

  lemma DiscardSameBudget(cfg: Config, s: State, op: Operation, own: LimitGroup, g: LimitGroup, now: real)
    requires op.Discard? && WorksFor(s, op, own) && g != own
    ensures SameBudget(cfg, Step(cfg, s, op, now).state, s, g, now)
  {
    hide Dropped, Consistent;
  }

  lemma BudgetJoins(cfg: Config, a: State, b: State, c: State, g: LimitGroup, now: real)
    requires SameBudget(cfg, a, b, g, now) && SameBudget(cfg, b, c, g, now)
    ensures SameBudget(cfg, a, c, g, now)
  {
    hide LiveIn, PendingIn, CooldownIn, DailyIn;
  }

  // -- What an answer depends on ---------------------------------------------------

  /** The windows and the lock a claim looks at beside its group's budget. */
  ghost predicate SameSurroundings(cfg: Config, a: State, b: State, op: Operation, now: real)
    requires Mints(op)
  {
    var cutoff := now - cfg.window as real;
    && (op.Claim? && op.destination.Some? ==>
        Dropped(Stored(a.limits, Destination(op.channel, op.destination.value)), cutoff)
        == Dropped(Stored(b.limits, Destination(op.channel, op.destination.value)), cutoff))
    && (op.Claim? && op.address.Some? ==>
        Dropped(Stored(a.limits, Sends(op.address.value)), cutoff) == Dropped(Stored(b.limits, Sends(op.address.value)), cutoff))
    && (op.ClaimTotp? ==> LockRefusal(Prune(cfg, a, now).guard, op.user, now) == LockRefusal(Prune(cfg, b, now).guard, op.user, now))
  }

  /** A claim is answered by its own group's allowance, the windows of its destination and
      client address, and the authenticator lock: nothing else of the other group's doings
      reaches it. */
  lemma ClaimDependsOnOwnBudget(cfg: Config, a: State, b: State, op: Operation, now: real)
    requires Mints(op) && SameAllowance(cfg, a.limits, b.limits, GroupOf(op.purpose), now)
    requires SameSurroundings(cfg, a, b, op, now)
    ensures Step(cfg, a, op, now).answer == Step(cfg, b, op, now).answer
  {
    hide LockRefusal, Dropped, WindowRefusal, Minted, Recorded, SameAllowance;
    var r, g := RequestOf(op), GroupOf(op.purpose);
    SameCooldown(cfg, a.limits, b.limits, r, now);
    SameDaily(cfg, a.limits, b.limits, r, now);
    SameWindows(cfg, a, b, op, now);
    hide CooldownRefusal, DailyRefusal, DestinationRefusal, AddressRefusal, PruneLimits;
  }

  lemma SameCooldown(cfg: Config, a: Limits, b: Limits, r: Request, now: real)
    requires SameAllowance(cfg, a, b, GroupOf(r.purpose), now)
    ensures CooldownRefusal(cfg, PruneLimits(cfg, a, now), r, now) == CooldownRefusal(cfg, PruneLimits(cfg, b, now), r, now)
  {
    hide PruneEvents;
    assert CooldownIn(cfg, a, GroupOf(r.purpose), now, r.user, r.channel) == CooldownIn(cfg, b, GroupOf(r.purpose), now, r.user, r.channel);
  }

  lemma SameDaily(cfg: Config, a: Limits, b: Limits, r: Request, now: real)
    requires SameAllowance(cfg, a, b, GroupOf(r.purpose), now)
    ensures DailyRefusal(cfg, PruneLimits(cfg, a, now), r) == DailyRefusal(cfg, PruneLimits(cfg, b, now), r)
  {
    assert DailyIn(a, GroupOf(r.purpose), now, r.user) == DailyIn(b, GroupOf(r.purpose), now, r.user);
    PruneStores(cfg, a, now, Daily(GroupOf(r.purpose), r.user));
    PruneStores(cfg, b, now, Daily(GroupOf(r.purpose), r.user));
    hide Dropped, PruneLimits;
  }

  lemma SameWindows(cfg: Config, a: State, b: State, op: Operation, now: real)
    requires Mints(op) && SameSurroundings(cfg, a, b, op, now)
    ensures DestinationRefusal(cfg, PruneLimits(cfg, a.limits, now), RequestOf(op), now)
         == DestinationRefusal(cfg, PruneLimits(cfg, b.limits, now), RequestOf(op), now)
    ensures AddressRefusal(cfg, PruneLimits(cfg, a.limits, now), RequestOf(op), now)
         == AddressRefusal(cfg, PruneLimits(cfg, b.limits, now), RequestOf(op), now)
  {
    hide Dropped, WindowRefusal, PruneLimits, LockRefusal, Prune;
    if op.Claim? && op.destination.Some? {
      PruneStores(cfg, a.limits, now, Destination(op.channel, op.destination.value));
      PruneStores(cfg, b.limits, now, Destination(op.channel, op.destination.value));
    }
    if op.Claim? && op.address.Some? {
      PruneStores(cfg, a.limits, now, Sends(op.address.value));
      PruneStores(cfg, b.limits, now, Sends(op.address.value));
    }
  }

  // -- Cooldowns -------------------------------------------------------------------

  /** The accepted call spends this cooldown. */
  predicate Draws(op: Operation, answer: Answer, key: (LimitGroup, UserId, Channel)) {
    Mints(op) && answer.Issued? && !Unthrottled(op) && key == (GroupOf(op.purpose), op.user, RequestOf(op).channel)
  }

  /** The call gives this cooldown back. */
  predicate Releases(s: State, op: Operation, key: (LimitGroup, UserId, Channel)) {
    op.Discard? && match Find(s.codes, op.id)
      case Some(c) => c.user == op.user && key == (GroupOf(c.purpose), op.user, c.channel)
      case None => false
  }

  /** Somebody drew on the cooldown at `since` or later, or it has long run out. */
  predicate Drawn(cfg: Config, l: Limits, key: (LimitGroup, UserId, Channel), since: real, last: real) {
    (key in l.lastSend && l.lastSend[key] >= since) || last - since >= cfg.cooldown as real
  }

  lemma StepDraws(cfg: Config, s: State, call: Call, key: (LimitGroup, UserId, Channel), since: real, last: real)
    requires last <= call.at && since <= call.at && Drawn(cfg, s.limits, key, since, last) && !Releases(s, call.op, key)
    ensures var o := Step(cfg, s, call.op, call.at);
      Drawn(cfg, o.state.limits, key, since, call.at)
      && (Draws(call.op, o.answer, key) ==> call.at - since >= cfg.cooldown as real)
  {
    hide PruneEvents, PruneCodes, PruneGuard, LockRefusal, DestinationRefusal, AddressRefusal, DailyRefusal, WindowRefusal;
    hide Minted, Committed, Commits, Append, Push, Judge, FailureRecorded, Lookup, VerifyRefusal, AttemptSpent;
    PrunedCooldown(cfg, s, call.at, key);
    RefusalsRefuse(cfg, Prune(cfg, s, call.at), call.op, call.at);
  }

  lemma PrunedCooldown(cfg: Config, s: State, now: real, key: (LimitGroup, UserId, Channel))
    ensures var l := Prune(cfg, s, now).limits.lastSend;
      (key in l <==> key in s.limits.lastSend && now - s.limits.lastSend[key] < cfg.cooldown as real)
      && (key in l ==> l[key] == s.limits.lastSend[key])
  {
  }

  lemma DrawRecords(cfg: Config, s: State, call: Call, key: (LimitGroup, UserId, Channel))
    ensures var o := Step(cfg, s, call.op, call.at);
      Draws(call.op, o.answer, key) ==> key in o.state.limits.lastSend && o.state.limits.lastSend[key] == call.at
  {
    hide Prune, LockRefusal, CooldownRefusal, DestinationRefusal, AddressRefusal, DailyRefusal, Minted, Append, Push;
    RefusalsRefuse(cfg, Prune(cfg, s, call.at), call.op, call.at);
  }

  lemma {:induction false} DrawnThrough(cfg: Config, calls: seq<Call>, i: nat, n: nat, key: (LimitGroup, UserId, Channel))
    requires Timed(calls) && i < n <= |calls| && Draws(calls[i].op, AnswerTo(cfg, calls, i), key)
    requires forall k :: i < k < n ==> !Releases(After(cfg, calls[..k]), calls[k].op, key)
    ensures Drawn(cfg, After(cfg, calls[..n]).limits, key, calls[i].at, calls[n - 1].at)
    decreases n
  {
    hide Step, Draws, Releases, Drawn;
    var s, last := After(cfg, calls[..n - 1]), calls[n - 1];
    assert calls[..n][..n - 1] == calls[..n - 1] && calls[..n][n - 1] == last;
    if n == i + 1 {
      DrawRecords(cfg, s, last, key);
      DrawnNow(cfg, Step(cfg, s, last.op, last.at).state.limits, key, last.at);
    } else {
      DrawnThrough(cfg, calls, i, n - 1, key);
      StepDraws(cfg, s, last, key, calls[i].at, calls[n - 2].at);
    }
  }

  lemma DrawnNow(cfg: Config, l: Limits, key: (LimitGroup, UserId, Channel), now: real)
    requires key in l.lastSend && l.lastSend[key] == now
    ensures Drawn(cfg, l, key, now, now)
  {
  }

  /** Two accepted claims on one cooldown lie at least its length apart, unless a discard in
      between gave it back. */
  lemma CooldownSpacing(cfg: Config, calls: seq<Call>, i: nat, j: nat, key: (LimitGroup, UserId, Channel))
    requires Timed(calls) && i < j < |calls|
    requires Draws(calls[i].op, AnswerTo(cfg, calls, i), key) && Draws(calls[j].op, AnswerTo(cfg, calls, j), key)
    requires forall k :: i < k < j ==> !Releases(After(cfg, calls[..k]), calls[k].op, key)
    ensures calls[j].at - calls[i].at >= cfg.cooldown as real
  {
    hide Step, After, Drawn;
    DrawnThrough(cfg, calls, i, j, key);
    StepDraws(cfg, After(cfg, calls[..j]), calls[j], key, calls[i].at, calls[j - 1].at);
  }

  /** A discard takes away exactly the owner's one challenge and releases exactly its own
      channel's cooldown; a stranger's discard changes nothing, and no discard touches a
      counted send. */
  lemma DiscardIsLocal(cfg: Config, s: State, id: ChallengeId, user: UserId, now: real)
    ensures
      var after := Step(cfg, s, Discard(id, user), now).state;
      match Find(s.codes, id)
      case None => after == s
      case Some(c) =>
        if c.user != user then after == s
        else (
          && !Holds(after.codes, id)
          && (forall other :: other != id ==> Find(after.codes, other) == Find(s.codes, other))
          && (forall key :: key in after.limits.lastSend <==> key in s.limits.lastSend && key != (GroupOf(c.purpose), user, c.channel))
          && (forall key :: key in after.limits.lastSend ==> after.limits.lastSend[key] == s.limits.lastSend[key])
          && (forall counter :: Stored(after.limits, counter) == Stored(s.limits, counter))
          && after.guard == s.guard)
  {
  }
}
