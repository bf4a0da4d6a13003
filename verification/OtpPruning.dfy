/** Pruning is invisible: the store that forgets answers every call like a reference store
    that keeps all history forever and filters it by time whenever it looks. */
module OtpPruning {
  import opened Wrappers
  import opened Otp
  import opened OtpWindows

  // -- The reference store ---------------------------------------------------------

  function Recent<K(==)>(store: map<K, seq<real>>, cutoff: real): map<K, seq<real>> {
    map k | k in store && Since(store[k], cutoff) != [] :: Since(store[k], cutoff)
  }

  function LimitsView(cfg: Config, l: Limits, now: real): Limits {
    var cutoff := now - cfg.window as real;
    Limits(Kept(l.lastSend, Cooling(cfg.cooldown, now)), Recent(l.sends, now - DAY as real),
           Recent(l.destinationSends, cutoff), Recent(l.addressSends, cutoff), Recent(l.addressRequests, cutoff))
  }

  function GuardView(cfg: Config, g: Guard, now: real): Guard {
    Guard(Recent(g.failures, now - cfg.window as real), Kept(g.locks, Holding(now)))
  }

  /** What still matters of a store at a time. */
  function View(cfg: Config, s: State, now: real): State {
    State(PruneCodes(s.codes, now), LimitsView(cfg, s.limits, now), GuardView(cfg, s.guard, now))
  }

  /** Recording without any bound on the queue. */
  function Remembered(l: Limits, r: Request, now: real): Limits {
    var group := GroupOf(r.purpose);
    Limits(
      l.lastSend[(group, r.user, r.channel) := now],
      if r.sendsMessage then Append(l.sends, (group, r.user), now) else l.sends,
      if r.destination.None? then l.destinationSends else Append(l.destinationSends, (r.channel, r.destination.value), now),
      if r.address.None? then l.addressSends else Append(l.addressSends, r.address.value, now),
      l.addressRequests)
  }

  function ReferenceClaim(cfg: Config, h: State, op: Operation, now: real): Outcome
    requires Mints(op)
  {
    match ClaimRefusal(cfg, View(cfg, h, now), op, now)
    case Some(refusal) => Outcome(h, refusal)
    case None =>
      var limits := if Unthrottled(op) then h.limits else Remembered(h.limits, RequestOf(op), now);
      Outcome(State(Codes(h.codes.live, h.codes.pending[op.id := Minted(cfg, op, now)]), limits, h.guard), Issued(op.id))
  }

  function ReferenceFailure(cfg: Config, g: Guard, user: UserId, now: real): Guard {
    var recent := |Since(Events(g.failures, user), now - cfg.window as real)| + 1;
    Guard(Append(g.failures, user, now), if recent >= cfg.maxAttempts then g.locks[user := now + cfg.lockout as real] else g.locks)
  }

  function ReferenceVerify(cfg: Config, h: State, op: Operation, now: real): Outcome
    requires op.Verify?
  {
    var view := View(cfg, h, now);
    match VerifyRefusal(view, op, now)
    case Some(refusal) => Outcome(h, refusal)
    case None =>
      var c := view.codes.live[op.id];
      match Judge(c, op.id, op.code, op.validator)
      case Raises => Outcome(h, Unavailable)
      case Wrong =>
        Outcome(State(Codes(AttemptSpent(h.codes.live, op.id, c), h.codes.pending), h.limits,
                      if c.channel == Totp then ReferenceFailure(cfg, h.guard, c.user, now) else h.guard), WrongCode)
      case Right => Outcome(AfterRight(h, op.id, c), Verified(c))
  }

  function ReferenceCommit(codes: Codes, now: real, id: ChallengeId, supersedes: Option<ChallengeId>): Codes {
    if Commits(PruneCodes(codes, now), id, supersedes) then Committed(codes, id, supersedes)
    else Codes(codes.live, codes.pending - {id})
  }

  function ReferenceDiscard(h: State, now: real, id: ChallengeId, user: UserId): State {
    match Find(PruneCodes(h.codes, now), id)
    case None => h
    case Some(c) =>
      if c.user != user then h
      else State(
        Codes(h.codes.live - {id}, h.codes.pending - {id}),
        h.limits.(lastSend := h.limits.lastSend - {(GroupOf(c.purpose), user, c.channel)}),
        h.guard)
  }

  function ReferenceReserve(cfg: Config, h: State, address: Address, now: real): Outcome {
    match WindowRefusal(Events(h.limits.addressRequests, address), cfg.perAddress, cfg.window, now)
    case Some(wait) => Outcome(h, Refused(RequestWindow, wait))
    case None =>
      Outcome(h.(limits := h.limits.(addressRequests := Append(h.limits.addressRequests, address, now))), Accepted)
  }

  /** One call of the store that forgets nothing. */
  function ReferenceStep(cfg: Config, h: State, op: Operation, now: real): Outcome {
    match op
    case Commit(id, supersedes) =>
      Outcome(h.(codes := ReferenceCommit(h.codes, now, id, supersedes)),
              if Commits(PruneCodes(h.codes, now), id, supersedes) then Accepted else Gone)
    case Discard(id, user) => Outcome(ReferenceDiscard(h, now, id, user), Accepted)
    case RequireLive(id, purpose) =>
      Outcome(h, match Lookup(PruneCodes(h.codes, now), id, purpose) { case Some(c) => Live(c) case None => Gone })
    case Verify(_, _, _, _, _) => ReferenceVerify(cfg, h, op, now)
    case ReserveRequest(address) => if address.None? then Outcome(h, Accepted) else ReferenceReserve(cfg, h, address.value, now)
    case Invalidate(user) => Outcome(InvalidateStep(h, user), Accepted)
    case _ => ReferenceClaim(cfg, h, op, now)
  }

  function ReferenceAfter(cfg: Config, calls: seq<Call>): State {
    if calls == [] then EMPTY
    else
      var n := |calls| - 1;
      ReferenceStep(cfg, ReferenceAfter(cfg, calls[..n]), calls[n].op, calls[n].at).state
  }

  function ReferenceAnswer(cfg: Config, calls: seq<Call>, i: nat): Answer
    requires i < |calls|
  {
    ReferenceStep(cfg, ReferenceAfter(cfg, calls[..i]), calls[i].op, calls[i].at).answer
  }

  // -- Ordered stores --------------------------------------------------------------

  ghost predicate OrderedStore<K(!new)>(store: map<K, seq<real>>, now: real) {
    forall k :: k in store ==> Ordered(store[k], now)
  }

  ghost predicate OrderedState(s: State, now: real) {
    && OrderedStore(s.limits.sends, now) && OrderedStore(s.limits.destinationSends, now)
    && OrderedStore(s.limits.addressSends, now) && OrderedStore(s.limits.addressRequests, now)
    && OrderedStore(s.guard.failures, now)
  }

  lemma PrunedStore<K(!new)>(store: map<K, seq<real>>, cutoff: real, at: real, now: real)
    requires OrderedStore(store, at) && at <= now
    ensures PruneEvents(store, cutoff) == Recent(store, cutoff) && OrderedStore(PruneEvents(store, cutoff), now)
    ensures OrderedStore(store, now)
  {
    forall k | k in store ensures Dropped(store[k], cutoff) == Since(store[k], cutoff) && Ordered(Dropped(store[k], cutoff), now) {
      DroppedIsSince(store[k], cutoff, at);
    }
  }

  lemma PruneIsView(cfg: Config, s: State, at: real, now: real)
    requires OrderedState(s, at) && at <= now
    ensures Prune(cfg, s, now) == View(cfg, s, now) && OrderedState(Prune(cfg, s, now), now) && OrderedState(s, now)
  {
    hide OrderedStore, PruneEvents, Recent;
    var cutoff := now - cfg.window as real;
    PrunedStore(s.limits.sends, now - DAY as real, at, now);
    PrunedStore(s.limits.destinationSends, cutoff, at, now);
    PrunedStore(s.limits.addressSends, cutoff, at, now);
    PrunedStore(s.limits.addressRequests, cutoff, at, now);
    PrunedStore(s.guard.failures, cutoff, at, now);
  }

  lemma AppendOrdered<K(!new)>(store: map<K, seq<real>>, key: K, now: real)
    requires OrderedStore(store, now)
    ensures OrderedStore(Append(store, key, now), now)
  {
  }

  lemma RemoveOrdered<K(!new)>(store: map<K, seq<real>>, keys: set<K>, now: real)
    requires OrderedStore(store, now)
    ensures OrderedStore(store - keys, now)
  {
  }

  // -- Recording commutes with filtering -------------------------------------------

  lemma RecentTwice<K(!new)>(store: map<K, seq<real>>, early: real, cutoff: real)
    requires early <= cutoff
    ensures Recent(Recent(store, early), cutoff) == Recent(store, cutoff)
  {
    forall k | k in store ensures Since(Since(store[k], early), cutoff) == Since(store[k], cutoff) {
      SinceTwice(store[k], early, cutoff);
    }
  }

  lemma SameRecentStore<K(!new)>(a: map<K, seq<real>>, b: map<K, seq<real>>, cutoff: real)
    requires forall k :: Since(Events(a, k), cutoff) == Since(Events(b, k), cutoff)
    ensures Recent(a, cutoff) == Recent(b, cutoff)
  {
    assert Since([], cutoff) == [];
    hide Since;
    forall k ensures k in Recent(a, cutoff) <==> k in Recent(b, cutoff) {
      assert Since(Events(a, k), cutoff) == Since(Events(b, k), cutoff);
    }
    forall k | k in Recent(a, cutoff) ensures Recent(a, cutoff)[k] == Recent(b, cutoff)[k] {
      assert Since(Events(a, k), cutoff) == Since(Events(b, k), cutoff);
    }
  }

  lemma EventsOfRecent<K(!new)>(store: map<K, seq<real>>, key: K, cutoff: real)
    ensures Events(Recent(store, cutoff), key) == Since(Events(store, key), cutoff)
  {
    assert Since([], cutoff) == [];
    hide Since;
  }

  lemma RecentAppend<K(!new)>(store: map<K, seq<real>>, key: K, cutoff: real, now: real)
    ensures Recent(Append(Recent(store, cutoff), key, now), cutoff) == Recent(Append(store, key, now), cutoff)
  {
    hide Since, Recent;
    var a, b := Append(Recent(store, cutoff), key, now), Append(store, key, now);
    forall k ensures Since(Events(a, k), cutoff) == Since(Events(b, k), cutoff) {
      EventsOfRecent(store, k, cutoff);
      SinceTwice(Events(store, k), cutoff, cutoff);
      SinceAppend(Events(store, k), now, cutoff);
      SinceAppend(Since(Events(store, k), cutoff), now, cutoff);
    }
    SameRecentStore(a, b, cutoff);
  }

  lemma RecentRemove<K(!new)>(store: map<K, seq<real>>, keys: set<K>, cutoff: real)
    ensures Recent(Recent(store, cutoff) - keys, cutoff) == Recent(store - keys, cutoff)
  {
    forall k | k in store ensures Since(Since(store[k], cutoff), cutoff) == Since(store[k], cutoff) {
      SinceTwice(store[k], cutoff, cutoff);
    }
  }

  /** An earlier view is enough for a later one. */
  lemma ViewLater(cfg: Config, s: State, at: real, now: real)
    requires at <= now
    ensures View(cfg, View(cfg, s, at), now) == View(cfg, s, now)
  {
    hide Recent;
    var early, cutoff := at - cfg.window as real, now - cfg.window as real;
    RecentTwice(s.limits.sends, at - DAY as real, now - DAY as real);
    RecentTwice(s.limits.destinationSends, early, cutoff);
    RecentTwice(s.limits.addressSends, early, cutoff);
    RecentTwice(s.limits.addressRequests, early, cutoff);
    RecentTwice(s.guard.failures, early, cutoff);
    KeptLater(s.codes.live, Valid(at), Valid(now));
    KeptLater(s.codes.pending, Valid(at), Valid(now));
    KeptLater(s.guard.locks, Holding(at), Holding(now));
    KeptLater(s.limits.lastSend, Cooling(cfg.cooldown, at), Cooling(cfg.cooldown, now));
    hide Kept;
  }

  lemma KeptLater<K, V(!new)>(store: map<K, V>, early: V -> bool, late: V -> bool)
    requires forall v :: late(v) ==> early(v)
    ensures Kept(Kept(store, early), late) == Kept(store, late)
  {
  }

  // -- Stores that look alike ------------------------------------------------------

  predicate CodesAgree(a: Codes, b: Codes, now: real) {
    PruneCodes(a, now) == PruneCodes(b, now)
  }

  lemma AppendAgrees<K(!new)>(a: map<K, seq<real>>, b: map<K, seq<real>>, key: K, cutoff: real, now: real)
    requires Recent(a, cutoff) == Recent(b, cutoff)
    ensures Recent(Append(a, key, now), cutoff) == Recent(Append(b, key, now), cutoff)
  {
    RecentAppend(a, key, cutoff, now);
    RecentAppend(b, key, cutoff, now);
  }

  lemma RemoveAgrees<K(!new)>(a: map<K, seq<real>>, b: map<K, seq<real>>, keys: set<K>, cutoff: real)
    requires Recent(a, cutoff) == Recent(b, cutoff)
    ensures Recent(a - keys, cutoff) == Recent(b - keys, cutoff)
  {
    RecentRemove(a, keys, cutoff);
    RecentRemove(b, keys, cutoff);
  }

  /** What is kept of two stores stays alike under the same update. */
  lemma UpdateAgrees<K, V>(a: map<K, V>, b: map<K, V>, key: K, value: V, keep: V -> bool)
    requires Kept(a, keep) == Kept(b, keep)
    ensures Kept(a[key := value], keep) == Kept(b[key := value], keep)
    ensures Kept(a - {key}, keep) == Kept(b - {key}, keep)
  {
    var x, y := Kept(a, keep), Kept(b, keep);
    forall k ensures k in a && keep(a[k]) <==> k in b && keep(b[k]) {
      assert k in x <==> k in y;
    }
    forall k | k in a && keep(a[k]) ensures a[k] == b[k] {
      assert x[k] == y[k];
    }
  }

  lemma KeptCommutes<K, V>(store: map<K, V>, f: V -> bool, g: V -> bool)
    ensures Kept(Kept(store, f), g) == Kept(Kept(store, g), f)
  {
  }

  lemma RecordAgrees(cfg: Config, a: Limits, b: Limits, r: Request, now: real)
    requires LimitsView(cfg, a, now) == LimitsView(cfg, b, now)
    requires r.sendsMessage ==> |Events(a.sends, (GroupOf(r.purpose), r.user))| < DailyLimit(cfg, GroupOf(r.purpose))
    ensures LimitsView(cfg, Recorded(cfg, a, r, now), now) == LimitsView(cfg, Remembered(b, r, now), now)
  {
    hide Recent, Kept, Append, Cooling, Push, Events, DailyCapacity, DailyLimit;
    var x, y, cutoff := Recorded(cfg, a, r, now), Remembered(b, r, now), now - cfg.window as real;
    var user := (GroupOf(r.purpose), r.user);
    assert Kept(x.lastSend, Cooling(cfg.cooldown, now)) == Kept(y.lastSend, Cooling(cfg.cooldown, now)) by {
      UpdateAgrees(a.lastSend, b.lastSend, (user.0, r.user, r.channel), now, Cooling(cfg.cooldown, now));
    }
    assert Recent(x.sends, now - DAY as real) == Recent(y.sends, now - DAY as real) by {
      AppendAgrees(a.sends, b.sends, user, now - DAY as real, now);
      PushIsAppend(cfg, a.sends, user.0, r.user, now);
    }
    assert Recent(x.destinationSends, cutoff) == Recent(y.destinationSends, cutoff) by {
      if r.destination.Some? {
        AppendAgrees(a.destinationSends, b.destinationSends, (r.channel, r.destination.value), cutoff, now);
      }
    }
    assert Recent(x.addressSends, cutoff) == Recent(y.addressSends, cutoff) by {
      if r.address.Some? {
        AppendAgrees(a.addressSends, b.addressSends, r.address.value, cutoff, now);
      }
    }
  }

  lemma PushIsAppend(cfg: Config, sends: map<(LimitGroup, UserId), seq<real>>, group: LimitGroup, user: UserId, now: real)
    ensures |Events(sends, (group, user))| < DailyLimit(cfg, group) ==>
      sends[(group, user) := Push(Events(sends, (group, user)), now, DailyCapacity(cfg, group))] == Append(sends, (group, user), now)
  {
  }

  lemma MintAgrees(a: Codes, b: Codes, id: ChallengeId, c: Challenge, now: real)
    requires CodesAgree(a, b, now)
    ensures CodesAgree(Codes(a.live, a.pending[id := c]), Codes(b.live, b.pending[id := c]), now)
  {
    hide Kept, Valid;
    UpdateAgrees(a.pending, b.pending, id, c, Valid(now));
  }

  /** Agreement, challenge by challenge. */
  lemma AgreeAt(a: Codes, b: Codes, now: real, id: ChallengeId)
    requires CodesAgree(a, b, now)
    ensures (id in a.live && a.live[id].expiresAt > now) <==> (id in b.live && b.live[id].expiresAt > now)
    ensures id in a.live && a.live[id].expiresAt > now ==> b.live[id] == a.live[id]
    ensures (id in a.pending && a.pending[id].expiresAt > now) <==> (id in b.pending && b.pending[id].expiresAt > now)
    ensures id in a.pending && a.pending[id].expiresAt > now ==> b.pending[id] == a.pending[id]
  {
    var x, y := PruneCodes(a, now), PruneCodes(b, now);
    assert id in x.live <==> id in a.live && a.live[id].expiresAt > now;
    assert id in x.pending <==> id in a.pending && a.pending[id].expiresAt > now;
    assert id in x.live ==> x.live[id] == y.live[id];
    assert id in x.pending ==> x.pending[id] == y.pending[id];
  }

  lemma SpendAgrees(a: Codes, b: Codes, id: ChallengeId, c: Challenge, now: real)
    requires CodesAgree(a, b, now)
    ensures CodesAgree(Codes(AttemptSpent(a.live, id, c), a.pending), Codes(AttemptSpent(b.live, id, c), b.pending), now)
    ensures CodesAgree(Codes(a.live - {id}, a.pending), Codes(b.live - {id}, b.pending), now)
    ensures CodesAgree(Codes(a.live, a.pending - {id}), Codes(b.live, b.pending - {id}), now)
    ensures CodesAgree(Codes(a.live - {id}, a.pending - {id}), Codes(b.live - {id}, b.pending - {id}), now)
  {
    hide Kept, Valid;
    UpdateAgrees(a.live, b.live, id, c.(attemptsLeft := c.attemptsLeft - 1), Valid(now));
    UpdateAgrees(a.pending, b.pending, id, c, Valid(now));
  }

  lemma ClearAgrees(a: Codes, b: Codes, user: UserId, purpose: Option<Purpose>, now: real)
    requires CodesAgree(a, b, now)
    ensures CodesAgree(Codes(ClearUser(a.live, user, purpose), a.pending), Codes(ClearUser(b.live, user, purpose), b.pending), now)
  {
    hide Kept, Valid, OtherThan;
    KeptCommutes(a.live, OtherThan(user, purpose), Valid(now));
    KeptCommutes(b.live, OtherThan(user, purpose), Valid(now));
  }

  lemma CommitAgrees(a: Codes, b: Codes, id: ChallengeId, c: Challenge, now: real)
    requires CodesAgree(a, b, now)
    ensures CodesAgree(Codes(ClearUser(a.live, c.user, Some(c.purpose))[id := c], a.pending - {id}),
                       Codes(ClearUser(b.live, c.user, Some(c.purpose))[id := c], b.pending - {id}), now)
  {
    hide Kept, Valid, ClearUser;
    ClearAgrees(a, b, c.user, Some(c.purpose), now);
    UpdateAgrees(ClearUser(a.live, c.user, Some(c.purpose)), ClearUser(b.live, c.user, Some(c.purpose)), id, c, Valid(now));
    UpdateAgrees(a.pending, b.pending, id, c, Valid(now));
  }

  // -- The simulation --------------------------------------------------------------

  /** Every challenge a commit or discard finds is still valid. */
  predicate Punctual(codes: Codes, op: Operation, now: real) {
    match op
    case Commit(id, supersedes) => Commits(codes, id, supersedes) ==>
      codes.pending[id].expiresAt > now && (supersedes.Some? ==> codes.live[supersedes.value].expiresAt > now)
    case Discard(id, _) =>
      (id in codes.pending ==> codes.pending[id].expiresAt > now) && (id in codes.live ==> codes.live[id].expiresAt > now)
    case _ => true
  }

  ghost predicate Simulates(cfg: Config, s: State, h: State, now: real) {
    OrderedState(s, now) && View(cfg, s, now) == View(cfg, h, now)
  }

  ghost predicate SameOutcome(cfg: Config, o: Outcome, r: Outcome, now: real) {
    o.answer == r.answer && Simulates(cfg, o.state, r.state, now)
  }

  lemma ClaimSimulates(cfg: Config, p: State, h: State, op: Operation, now: real)
    requires Mints(op) && p == View(cfg, h, now) && Simulates(cfg, p, h, now)
    ensures SameOutcome(cfg, ClaimStep(cfg, p, op, now), ReferenceClaim(cfg, h, op, now), now)
  {
    hide OrderedStore, LimitsView, GuardView, Minted, LockRefusal, CooldownRefusal, DestinationRefusal, AddressRefusal, Recorded, Remembered;
    if ClaimRefusal(cfg, p, op, now).None? {
      MintAgrees(p.codes, h.codes, op.id, Minted(cfg, op, now), now);
      if !Unthrottled(op) {
        RecordAgrees(cfg, p.limits, h.limits, RequestOf(op), now);
        RecordedOrdered(cfg, p, RequestOf(op), now);
      }
    }
  }

  lemma RecordedOrdered(cfg: Config, s: State, r: Request, now: real)
    requires OrderedState(s, now) && Refusal(cfg, s.limits, r, now).None?
    ensures OrderedState(s.(limits := Recorded(cfg, s.limits, r, now)), now)
  {
    hide OrderedStore, CooldownRefusal, DestinationRefusal, AddressRefusal;
    PushIsAppend(cfg, s.limits.sends, GroupOf(r.purpose), r.user, now);
    AppendOrdered(s.limits.sends, (GroupOf(r.purpose), r.user), now);
    if r.destination.Some? {
      AppendOrdered(s.limits.destinationSends, (r.channel, r.destination.value), now);
    }
    if r.address.Some? {
      AppendOrdered(s.limits.addressSends, r.address.value, now);
    }
  }

  lemma FailureAgrees(cfg: Config, a: Guard, b: Guard, user: UserId, now: real)
    requires GuardView(cfg, a, now) == GuardView(cfg, b, now) && a == GuardView(cfg, b, now)
    ensures GuardView(cfg, FailureRecorded(cfg, a, user, now), now) == GuardView(cfg, ReferenceFailure(cfg, b, user, now), now)
  {
    hide Recent, Kept, Since, Holding;
    var cutoff := now - cfg.window as real;
    AppendAgrees(a.failures, b.failures, user, cutoff, now);
    EventsOfRecent(b.failures, user, cutoff);
    UpdateAgrees(a.locks, b.locks, user, now + cfg.lockout as real, Holding(now));
  }

  lemma VerifySimulates(cfg: Config, p: State, h: State, op: Operation, now: real)
    requires op.Verify? && p == View(cfg, h, now) && Simulates(cfg, p, h, now)
    ensures SameOutcome(cfg, VerifyStep(cfg, p, op, now), ReferenceVerify(cfg, h, op, now), now)
  {
    hide OrderedStore, LimitsView, PruneCodes, Judge, FailureRecorded, ReferenceFailure, LockRefusal, Recent, Kept;
    if VerifyRefusal(p, op, now).None? {
      var c := p.codes.live[op.id];
      SpendAgrees(p.codes, h.codes, op.id, c, now);
      FailureAgrees(cfg, p.guard, h.guard, c.user, now);
      RemoveAgrees(p.guard.failures, h.guard.failures, {c.user}, now - cfg.window as real);
      FailureOrdered(cfg, p.guard, c.user, now);
      RemoveOrdered(p.guard.failures, {c.user}, now);
    }
  }

  lemma FailureOrdered(cfg: Config, g: Guard, user: UserId, now: real)
    requires OrderedStore(g.failures, now)
    ensures OrderedStore(FailureRecorded(cfg, g, user, now).failures, now)
  {
    AppendOrdered(g.failures, user, now);
  }

  lemma ReserveSimulates(cfg: Config, p: State, h: State, address: Address, now: real)
    requires p == View(cfg, h, now) && Simulates(cfg, p, h, now)
    ensures SameOutcome(cfg, ReserveRequestStep(cfg, p, address, now), ReferenceReserve(cfg, h, address, now), now)
  {
    hide OrderedStore, PruneCodes, GuardView, Recent, Kept, Append;
    var cutoff := now - cfg.window as real;
    EventsOfRecent(h.limits.addressRequests, address, cutoff);
    SinceTwice(Events(h.limits.addressRequests, address), cutoff, cutoff);
    SameRecent(Events(p.limits.addressRequests, address), Events(h.limits.addressRequests, address), cfg.perAddress, cfg.window, now);
    AppendAgrees(p.limits.addressRequests, h.limits.addressRequests, address, cutoff, now);
    AppendOrdered(p.limits.addressRequests, address, now);
  }

  lemma CommitSimulates(cfg: Config, s: State, h: State, op: Operation, now: real)
    requires op.Commit? && Simulates(cfg, s, h, now) && Punctual(s.codes, op, now)
    ensures SameOutcome(cfg, Step(cfg, s, op, now), ReferenceStep(cfg, h, op, now), now)
  {
    hide OrderedStore, LimitsView, GuardView, ClearUser;
    AgreeAt(s.codes, h.codes, now, op.id);
    if op.supersedes.Some? {
      AgreeAt(s.codes, h.codes, now, op.supersedes.value);
    }
    SpendAgrees(s.codes, h.codes, op.id, Challenge(0, SignIn, None, 0.0, 0, Sms, None), now);
    if Commits(s.codes, op.id, op.supersedes) {
      CommitAgrees(s.codes, h.codes, op.id, s.codes.pending[op.id], now);
    }
  }

  lemma DiscardSimulates(cfg: Config, s: State, h: State, op: Operation, now: real)
    requires op.Discard? && Simulates(cfg, s, h, now) && Punctual(s.codes, op, now)
    ensures SameOutcome(cfg, Step(cfg, s, op, now), ReferenceStep(cfg, h, op, now), now)
  {
    hide OrderedStore, GuardView, Recent;
    AgreeAt(s.codes, h.codes, now, op.id);
    match Find(s.codes, op.id)
    case None =>
    case Some(c) =>
      SpendAgrees(s.codes, h.codes, op.id, c, now);
      UpdateAgrees(s.limits.lastSend, h.limits.lastSend, (GroupOf(c.purpose), op.user, c.channel), now, Cooling(cfg.cooldown, now));
  }

  lemma InvalidateSimulates(cfg: Config, s: State, h: State, user: UserId, now: real)
    requires Simulates(cfg, s, h, now)
    ensures Simulates(cfg, InvalidateStep(s, user), InvalidateStep(h, user), now)
  {
    hide OrderedStore, LimitsView, PruneCodes, Recent, Kept, ClearUser;
    ClearAgrees(s.codes, h.codes, user, None, now);
    RemoveAgrees(s.guard.failures, h.guard.failures, {user}, now - cfg.window as real);
    RemoveOrdered(s.guard.failures, {user}, now);
    UpdateAgrees(s.guard.locks, h.guard.locks, user, now, Holding(now));
  }

  lemma StepSimulates(cfg: Config, s: State, h: State, op: Operation, now: real)
    requires Simulates(cfg, s, h, now) && Punctual(s.codes, op, now)
    ensures SameOutcome(cfg, Step(cfg, s, op, now), ReferenceStep(cfg, h, op, now), now)
  {
    hide Prune, View, OrderedState, ClaimStep, VerifyStep, ReserveRequestStep, InvalidateStep;
    hide ReferenceClaim, ReferenceVerify, ReferenceReserve, ReferenceCommit, ReferenceDiscard, Commits, Committed, DiscardStep, Punctual;
    PruneIsView(cfg, s, now, now);
    ViewLater(cfg, h, now, now);
    ViewLater(cfg, s, now, now);
    ViewCodes(cfg, h, now);
    var p := Prune(cfg, s, now);
    match op
    case Commit(_, _) => CommitSimulates(cfg, s, h, op, now);
    case Discard(_, _) => DiscardSimulates(cfg, s, h, op, now);
    case RequireLive(_, _) =>
    case Verify(_, _, _, _, _) => VerifySimulates(cfg, p, h, op, now);
    case ReserveRequest(address) =>
      if address.Some? {
        ReserveSimulates(cfg, p, h, address.value, now);
      }
    case Invalidate(user) => InvalidateSimulates(cfg, s, h, user, now);
    case _ => ClaimSimulates(cfg, p, h, op, now);
  }

  lemma ViewCodes(cfg: Config, h: State, now: real)
    ensures View(cfg, h, now).codes == PruneCodes(h.codes, now)
  {
  }

  /** Every commit and discard of the run finds only valid challenges. */
  predicate PunctualRun(cfg: Config, calls: seq<Call>) {
    forall i :: 0 <= i < |calls| ==> Punctual(After(cfg, calls[..i]).codes, calls[i].op, calls[i].at)
  }

  lemma {:induction false} RunSimulates(cfg: Config, calls: seq<Call>, now: real)
    requires Timed(calls) && Until(calls, now) && PunctualRun(cfg, calls)
    ensures Simulates(cfg, After(cfg, calls), ReferenceAfter(cfg, calls), now)
  {
    hide Step, ReferenceStep, View, OrderedState, Punctual;
    if calls == [] {
      EmptySimulates(cfg, now);
    } else {
      var n := |calls| - 1;
      var before, last := calls[..n], calls[n];
      assert forall i :: 0 <= i < n ==> before[..i] == calls[..i];
      RunSimulates(cfg, before, last.at);
      assert Punctual(After(cfg, before).codes, last.op, last.at);
      StepSimulates(cfg, After(cfg, before), ReferenceAfter(cfg, before), last.op, last.at);
      SimulatesLater(cfg, After(cfg, calls), ReferenceAfter(cfg, calls), last.at, now);
    }
  }

  lemma EmptySimulates(cfg: Config, now: real)
    ensures Simulates(cfg, EMPTY, EMPTY, now)
  {
  }

  lemma SimulatesLater(cfg: Config, s: State, h: State, at: real, now: real)
    requires Simulates(cfg, s, h, at) && at <= now
    ensures Simulates(cfg, s, h, now)
  {
    hide View, OrderedState;
    PruneIsView(cfg, s, at, now);
    ViewLater(cfg, s, at, now);
    ViewLater(cfg, h, at, now);
  }

  /** The refinement: over every run whose commits and discards touch only challenges that
      have not expired, every answer is the reference store's. */
  lemma PruningIsInvisible(cfg: Config, calls: seq<Call>, i: nat)
    requires Timed(calls) && i < |calls| && PunctualRun(cfg, calls)
    ensures AnswerTo(cfg, calls, i) == ReferenceAnswer(cfg, calls, i)
  {
    hide Step, ReferenceStep, Simulates, Punctual;
    var before, call := calls[..i], calls[i];
    assert forall j :: 0 <= j < i ==> before[..j] == calls[..j];
    RunSimulates(cfg, before, call.at);
    StepSimulates(cfg, After(cfg, before), ReferenceAfter(cfg, before), call.op, call.at);
  }

  /** The condition is needed, and exactly so for a commit: it reads the store without
      pruning, so it accepts what it finds even when the reference store no longer has it. */
  lemma CommitAgreesIffPunctual(cfg: Config, s: State, h: State, id: ChallengeId, supersedes: Option<ChallengeId>, now: real)
    requires Simulates(cfg, s, h, now)
    ensures Step(cfg, s, Commit(id, supersedes), now).answer == ReferenceStep(cfg, h, Commit(id, supersedes), now).answer
      <==> Punctual(s.codes, Commit(id, supersedes), now)
  {
    hide OrderedState, LimitsView, GuardView, Committed;
    AgreeAt(s.codes, h.codes, now, id);
    if supersedes.Some? {
      AgreeAt(s.codes, h.codes, now, supersedes.value);
    }
  }

  /** A discard of an expired challenge goes unnoticed exactly when there is no running
      cooldown for it to release. */
  lemma DiscardAgreesIff(cfg: Config, s: State, h: State, id: ChallengeId, user: UserId, now: real)
    requires Simulates(cfg, s, h, now) && s.codes.live.Keys !! s.codes.pending.Keys
    ensures
      var found := Find(s.codes, id);
      View(cfg, Step(cfg, s, Discard(id, user), now).state, now) == View(cfg, ReferenceStep(cfg, h, Discard(id, user), now).state, now)
      <==> (found.Some? && found.value.user == user && found.value.expiresAt <= now ==>
            !Cools(cfg, s.limits, (GroupOf(found.value.purpose), user, found.value.channel), now))
  {
    hide OrderedState, GuardView, Recent, Kept, Cools;
    AgreeAt(s.codes, h.codes, now, id);
    FindValid(s.codes, id, now);
    FindValid(h.codes, id, now);
    match Find(s.codes, id)
    case None =>
    case Some(c) =>
      var key := (GroupOf(c.purpose), user, c.channel);
      var cooling := Cooling(cfg.cooldown, now);
      SpendAgrees(s.codes, h.codes, id, c, now);
      UpdateAgrees(s.limits.lastSend, h.limits.lastSend, key, now, cooling);
      RemoveExpired(s.codes, id, now);
      RemoveDropped(s.limits.lastSend, key, cooling);
      CoolsIsKept(cfg, s.limits, key, now);
  }

  lemma CoolsIsKept(cfg: Config, l: Limits, key: (LimitGroup, UserId, Channel), now: real)
    ensures Cools(cfg, l, key, now) <==> key in Kept(l.lastSend, Cooling(cfg.cooldown, now))
  {
  }

  lemma FindValid(codes: Codes, id: ChallengeId, now: real)
    ensures Find(PruneCodes(codes, now), id) ==
      if id in codes.pending && codes.pending[id].expiresAt > now then Some(codes.pending[id])
      else if id in codes.live && codes.live[id].expiresAt > now then Some(codes.live[id]) else None
  {
  }

  predicate Cools(cfg: Config, l: Limits, key: (LimitGroup, UserId, Channel), now: real) {
    key in l.lastSend && now - l.lastSend[key] < cfg.cooldown as real
  }

  lemma RemoveExpired(codes: Codes, id: ChallengeId, now: real)
    ensures (id in codes.live ==> codes.live[id].expiresAt <= now) && (id in codes.pending ==> codes.pending[id].expiresAt <= now)
      ==> PruneCodes(Codes(codes.live - {id}, codes.pending - {id}), now) == PruneCodes(codes, now)
  {
    RemoveDropped(codes.live, id, Valid(now));
    RemoveDropped(codes.pending, id, Valid(now));
  }

  lemma RemoveDropped<K, V>(store: map<K, V>, key: K, keep: V -> bool)
    ensures key !in Kept(store, keep) <==> Kept(store - {key}, keep) == Kept(store, keep)
  {
    assert key !in Kept(store - {key}, keep);
    if key !in Kept(store, keep) {
      assert Kept(store - {key}, keep) == Kept(store, keep);
    }
  }

  // -- Codes that are sent late ----------------------------------------------------

  /** A texted sign-in code. */
  function Texted(id: ChallengeId, code: string, user: UserId, number: Address): Operation {
    Claim(id, code, user, SignIn, Sms, Some(number), None)
  }

  lemma TextIsPending(cfg: Config, id: ChallengeId, code: string, user: UserId, number: Address)
    ensures
      var o := Step(cfg, EMPTY, Texted(id, code, user, number), 0.0);
      && o.state.codes == Codes(map[], map[id := Minted(cfg, Texted(id, code, user, number), 0.0)])
      && o.state.guard == EMPTY.guard && o.state.limits.lastSend.Keys == {(SignInGroup, user, Sms)}
  {
    hide Minted;
    assert Prune(cfg, EMPTY, 0.0) == EMPTY;
    assert Since([], 0.0 - cfg.window as real) == [];
  }

  /** A run in which it fails: a code claimed at 0 is still on its way when the provider
      accepts it, at the moment it expires. */
  lemma LateCommitIsAccepted(cfg: Config, id: ChallengeId, code: string, user: UserId, number: Address)
    ensures
      var calls := [Call(Texted(id, code, user, number), 0.0), Call(Commit(id, None), cfg.codeTtl as real)];
      Timed(calls) && AnswerTo(cfg, calls, 1) == Accepted && ReferenceAnswer(cfg, calls, 1) == Gone
  {
    var claim := Call(Texted(id, code, user, number), 0.0);
    var calls := [claim, Call(Commit(id, None), cfg.codeTtl as real)];
    FirstCall(cfg, claim, calls[1]);
    assert Minted(cfg, claim.op, 0.0).expiresAt == cfg.codeTtl as real;
    hide Step, ReferenceStep, After, ReferenceAfter, Minted;
    TextIsPending(cfg, id, code, user, number);
    ReferenceTextIsPending(cfg, id, code, user, number);
    LateCommit(cfg, After(cfg, calls[..1]), ReferenceAfter(cfg, calls[..1]), id, Minted(cfg, claim.op, 0.0), cfg.codeTtl as real);
  }

  lemma FirstCall(cfg: Config, c: Call, d: Call)
    ensures After(cfg, [c, d][..1]) == Step(cfg, EMPTY, c.op, c.at).state
    ensures ReferenceAfter(cfg, [c, d][..1]) == ReferenceStep(cfg, EMPTY, c.op, c.at).state
  {
    assert [c, d][..1] == [c] && [c][..0] == [];
    assert After(cfg, []) == EMPTY && ReferenceAfter(cfg, []) == EMPTY;
    hide Step, ReferenceStep;
  }

  lemma LateCommit(cfg: Config, s: State, h: State, id: ChallengeId, c: Challenge, now: real)
    requires s.codes == Codes(map[], map[id := c]) && h.codes == s.codes && c.expiresAt <= now
    ensures Step(cfg, s, Commit(id, None), now).answer == Accepted && ReferenceStep(cfg, h, Commit(id, None), now).answer == Gone
  {
  }

  lemma ReferenceTextIsPending(cfg: Config, id: ChallengeId, code: string, user: UserId, number: Address)
    ensures ReferenceStep(cfg, EMPTY, Texted(id, code, user, number), 0.0).state.codes
      == Codes(map[], map[id := Minted(cfg, Texted(id, code, user, number), 0.0)])
  {
    hide Minted, Remembered;
    assert Since([], 0.0 - cfg.window as real) == [];
  }

  /** A texted code whose send is awaited, an authenticator challenge that the same user starts
      half a lifetime later in another request, and the text accepted as its code expires. */
  function Overtaken(cfg: Config, late: ChallengeId, code: string, number: Address, current: ChallengeId, user: UserId): seq<Call> {
    var half, end := cfg.codeTtl as real / 2.0, cfg.codeTtl as real;
    [Call(Texted(late, code, user, number), 0.0), Call(ClaimTotp(current, user, SignIn, None, true), half),
     Call(Commit(current, None), half), Call(Commit(late, None), end)]
  }

  /** And a run in which the late commit takes away a current challenge that would have been
      good for longer, and leaves one that cannot be used. */
  lemma LateCommitClearsCurrent(cfg: Config, late: ChallengeId, code: string, number: Address, current: ChallengeId, user: UserId)
    requires late != current
    ensures
      var calls := Overtaken(cfg, late, code, number, current, user);
      var before, after := After(cfg, calls[..3]).codes.live, After(cfg, calls).codes.live;
      && Timed(calls) && AnswerTo(cfg, calls, 3) == Accepted
      && current in before && before[current].expiresAt > calls[3].at
      && current !in after && late in after && after[late].expiresAt <= calls[3].at
  {
    var calls := Overtaken(cfg, late, code, number, current, user);
    OvertakenIsTimed(cfg, late, code, number, current, user);
    hide Timed, After, Step, AnswerTo;
    AfterFour(cfg, calls[0], calls[1], calls[2], calls[3]);
    OvertakenStates(cfg, late, code, number, current, user, calls[1].at, calls[2].at, calls[3].at);
  }

  /** What four calls come to. */
  lemma AfterFour(cfg: Config, c: Call, d: Call, e: Call, f: Call)
    ensures
      var one := Step(cfg, EMPTY, c.op, c.at).state;
      var two := Step(cfg, one, d.op, d.at).state;
      var three := Step(cfg, two, e.op, e.at).state;
      var last := Step(cfg, three, f.op, f.at);
      After(cfg, [c, d, e, f][..3]) == three && AnswerTo(cfg, [c, d, e, f], 3) == last.answer && After(cfg, [c, d, e, f]) == last.state
  {
    assert After(cfg, []) == EMPTY;
    hide Step, After, AnswerTo;
    assert [] + [c] == [c] && [c] + [d] == [c, d] && [c, d] + [e] == [c, d, e] && [c, d, e] + [f] == [c, d, e, f];
    assert [c, d, e, f][..3] == [c, d, e];
    AfterOne(cfg, [], c);
    AfterOne(cfg, [c], d);
    AfterOne(cfg, [c, d], e);
    AfterOne(cfg, [c, d, e], f);
  }

  lemma OvertakenStates(cfg: Config, late: ChallengeId, code: string, number: Address, current: ChallengeId, user: UserId,
                        half: real, mid: real, end: real)
    requires late != current && 0.0 <= half < cfg.codeTtl as real
    ensures
      var text := Minted(cfg, Texted(late, code, user, number), 0.0);
      var one := Step(cfg, EMPTY, Texted(late, code, user, number), 0.0).state;
      var two := Step(cfg, one, ClaimTotp(current, user, SignIn, None, true), half).state;
      var three := Step(cfg, two, Commit(current, None), mid).state;
      var last := Step(cfg, three, Commit(late, None), end);
      && three.codes.live == map[current := Challenge(user, SignIn, None, half + cfg.codeTtl as real, cfg.maxAttempts, Totp, None)]
      && last.answer == Accepted && last.state.codes.live == map[late := text] && text.expiresAt == cfg.codeTtl as real
  {
    var text := Minted(cfg, Texted(late, code, user, number), 0.0);
    assert text.expiresAt == cfg.codeTtl as real && text.user == user && text.purpose == SignIn;
    hide Step, Minted;
    var one := Step(cfg, EMPTY, Texted(late, code, user, number), 0.0).state;
    TextIsPending(cfg, late, code, user, number);
    SecondPending(cfg, one, late, text, current, user, half);
    CurrentThenLate(cfg, Step(cfg, one, ClaimTotp(current, user, SignIn, None, true), half).state, late, text, current, mid, end);
  }

  lemma OvertakenIsTimed(cfg: Config, late: ChallengeId, code: string, number: Address, current: ChallengeId, user: UserId)
    ensures Timed(Overtaken(cfg, late, code, number, current, user))
  {
  }

  lemma SecondPending(cfg: Config, s: State, late: ChallengeId, text: Challenge, id: ChallengeId, user: UserId, now: real)
    requires s.codes == Codes(map[], map[late := text]) && s.guard == EMPTY.guard && (SignInGroup, user, Totp) !in s.limits.lastSend
    requires 0.0 <= now < text.expiresAt && late != id
    ensures Step(cfg, s, ClaimTotp(id, user, SignIn, None, true), now).state.codes
      == Codes(map[], map[late := text, id := Challenge(user, SignIn, None, now + cfg.codeTtl as real, cfg.maxAttempts, Totp, None)])
  {
    hide PruneEvents, Dropped, Recorded;
    assert PruneCodes(s.codes, now) == s.codes;
    assert user !in PruneGuard(cfg, s.guard, now).locks;
  }

  lemma CurrentThenLate(cfg: Config, s: State, late: ChallengeId, text: Challenge, id: ChallengeId, now: real, end: real)
    requires s.codes.live == map[] && late in s.codes.pending && s.codes.pending[late] == text && id in s.codes.pending && late != id
    requires s.codes.pending[id].user == text.user && s.codes.pending[id].purpose == text.purpose
    ensures
      var mid := Step(cfg, s, Commit(id, None), now).state;
      var last := Step(cfg, mid, Commit(late, None), end);
      && mid.codes.live == map[id := s.codes.pending[id]] && last.answer == Accepted && last.state.codes.live == map[late := text]
  {
  }
}
