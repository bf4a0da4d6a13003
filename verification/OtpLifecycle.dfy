/** The life of a challenge over whole runs: what every call keeps of the store, and that a
    challenge is issued, committed, guessed at and used at most as often as promised. */
module OtpLifecycle {
  import opened Wrappers
  import opened Otp

  // -- The store invariant ---------------------------------------------------------

  predicate Holds(codes: Codes, id: ChallengeId) {
    id in codes.live || id in codes.pending
  }

  predicate SameFlow(c: Challenge, d: Challenge) {
    c.user == d.user && c.purpose == d.purpose
  }

  /** At most one live challenge per user and purpose; no id both claimed and live; every
      challenge has some of its attempts left. */
  ghost predicate Consistent(cfg: Config, codes: Codes) {
    && (forall id :: !(id in codes.live && id in codes.pending))
    && (forall id :: id in codes.live ==> 1 <= codes.live[id].attemptsLeft <= cfg.maxAttempts)
    && (forall id :: id in codes.pending ==> codes.pending[id].attemptsLeft == cfg.maxAttempts)
    && forall a, b :: a in codes.live && b in codes.live && SameFlow(codes.live[a], codes.live[b]) ==> a == b
  }

  /** The ids drawn during a run. */
  predicate WasMinted(calls: seq<Call>, id: ChallengeId) {
    exists i :: 0 <= i < |calls| && Mints(calls[i].op) && calls[i].op.id == id
  }

  /** How one challenge can come to be pending after a call. */
  predicate PendingStep(cfg: Config, a: Codes, b: Codes, op: Operation, answer: Answer, now: real, id: ChallengeId) {
    id in b.pending ==>
      || (Mints(op) && op.id == id && answer == Issued(id) && b.pending[id] == Minted(cfg, op, now))
      || (id in a.pending && b.pending[id] == a.pending[id] && answer != Issued(id))
  }

  /** How one challenge can come to be live after a call. */
  predicate LiveStep(a: Codes, b: Codes, op: Operation, answer: Answer, id: ChallengeId) {
    id in b.live ==>
      || (op.Commit? && op.id == id && answer == Accepted && id in a.pending && b.live[id] == a.pending[id] && id !in b.pending)
      || (id in a.live && Misses(op, answer, id) && a.live[id].attemptsLeft > 1
          && b.live[id] == a.live[id].(attemptsLeft := a.live[id].attemptsLeft - 1))
      || (id in a.live && !Misses(op, answer, id) && !Uses(op, answer, id) && b.live[id] == a.live[id])
  }

  /** A commit leaves the user no other live challenge of that purpose. */
  ghost predicate ClearStep(a: Codes, b: Codes, op: Operation, answer: Answer) {
    op.Commit? && answer == Accepted ==>
      op.id in a.pending
      && forall id :: id in b.live && SameFlow(b.live[id], a.pending[op.id]) ==> id == op.id
  }

  /** What a call may do to the codes: mint, commit, spend an attempt, or drop. */
  ghost predicate CodesStep(cfg: Config, a: Codes, b: Codes, op: Operation, answer: Answer, now: real) {
    && (forall id :: PendingStep(cfg, a, b, op, answer, now, id))
    && (forall id :: LiveStep(a, b, op, answer, id))
    && ClearStep(a, b, op, answer)
  }

  /** The call judged a code for the challenge and found it wrong. */
  predicate Misses(op: Operation, answer: Answer, id: ChallengeId) {
    op.Verify? && op.id == id && answer == WrongCode
  }

  /** The call used the challenge up. */
  predicate Uses(op: Operation, answer: Answer, id: ChallengeId) {
    op.Verify? && op.id == id && answer.Verified?
  }

  lemma PruneKeeps(cfg: Config, s: State, now: real)
    ensures
      var a, b := s.codes, Prune(cfg, s, now).codes;
      && (forall id :: id in b.live ==> id in a.live && b.live[id] == a.live[id] && b.live[id].expiresAt > now)
      && (forall id :: id in b.pending ==> id in a.pending && b.pending[id] == a.pending[id])
      && (forall id :: id in a.live && a.live[id].expiresAt > now ==> id in b.live)
  {
  }

  /** A refused call never looks like an accepted one. */
  lemma RefusalsRefuse(cfg: Config, s: State, op: Operation, now: real)
    ensures Mints(op) && ClaimRefusal(cfg, s, op, now).Some? ==> ClaimRefusal(cfg, s, op, now).value.Refused?
    ensures op.Verify? && VerifyRefusal(s, op, now).Some? ==>
      VerifyRefusal(s, op, now).value.Gone? || VerifyRefusal(s, op, now).value.Refused?
  {
    hide WindowRefusal, DailyLimit;
  }

  lemma StepIsCodesStep(cfg: Config, s: State, op: Operation, now: real)
    ensures CodesStep(cfg, s.codes, Step(cfg, s, op, now).state.codes, op, Step(cfg, s, op, now).answer, now)
  {
    hide Prune, ClaimRefusal, VerifyRefusal, Recorded, FailureRecorded, Judge, Minted, WindowRefusal;
    PruneKeeps(cfg, s, now);
    RefusalsRefuse(cfg, Prune(cfg, s, now), op, now);
    match op
    case Verify(_, _, _, _, _) => VerifyCodesStep(cfg, s, op, now);
    case Commit(_, _) => CommitCodesStep(cfg, s, op, now);
    case _ =>
  }

  lemma CommitCodesStep(cfg: Config, s: State, op: Operation, now: real)
    requires op.Commit?
    ensures CodesStep(cfg, s.codes, Step(cfg, s, op, now).state.codes, op, Step(cfg, s, op, now).answer, now)
  {
  }

  lemma VerifyLooks(s: State, op: Operation, now: real)
    requires op.Verify? && VerifyRefusal(s, op, now).None?
    ensures op.id in s.codes.live && s.codes.live[op.id].purpose == op.purpose
  {
  }

  lemma VerifyCodesStep(cfg: Config, s: State, op: Operation, now: real)
    requires op.Verify?
    ensures CodesStep(cfg, s.codes, Step(cfg, s, op, now).state.codes, op, Step(cfg, s, op, now).answer, now)
  {
    hide Prune, VerifyRefusal, FailureRecorded, Judge;
    PruneKeeps(cfg, s, now);
    var p := Prune(cfg, s, now);
    RefusalsRefuse(cfg, p, op, now);
    if VerifyRefusal(p, op, now).None? {
      VerifyLooks(p, op, now);
    }
  }

  /** Every call keeps the store consistent, as long as new ids are new. */
  lemma StepKeepsConsistent(cfg: Config, s: State, op: Operation, now: real)
    requires Consistent(cfg, s.codes) && (Mints(op) ==> !Holds(s.codes, op.id))
    ensures Consistent(cfg, Step(cfg, s, op, now).state.codes)
  {
    var a, b, answer := s.codes, Step(cfg, s, op, now).state.codes, Step(cfg, s, op, now).answer;
    StepIsCodesStep(cfg, s, op, now);
    hide Step, Minted;
    MintedFull(cfg, op, now);
    hide CodesStep;
    forall id ensures PendingStep(cfg, a, b, op, answer, now, id) && LiveStep(a, b, op, answer, id) {
      AtId(cfg, a, b, op, answer, now, id);
    }
    assert ClearStep(a, b, op, answer) by { AtId(cfg, a, b, op, answer, now, 0); }
    forall id ensures !(id in b.live && id in b.pending)
      && (id in b.live ==> 1 <= b.live[id].attemptsLeft <= cfg.maxAttempts)
      && (id in b.pending ==> b.pending[id].attemptsLeft == cfg.maxAttempts) {
      assert PendingStep(cfg, a, b, op, answer, now, id) && LiveStep(a, b, op, answer, id);
    }
    forall x, y | x in b.live && y in b.live && SameFlow(b.live[x], b.live[y]) ensures x == y {
      assert LiveStep(a, b, op, answer, x) && LiveStep(a, b, op, answer, y);
    }
  }

  lemma AtId(cfg: Config, a: Codes, b: Codes, op: Operation, answer: Answer, now: real, id: ChallengeId)
    requires CodesStep(cfg, a, b, op, answer, now)
    ensures PendingStep(cfg, a, b, op, answer, now, id) && LiveStep(a, b, op, answer, id) && ClearStep(a, b, op, answer)
  {
  }

  lemma MintedFull(cfg: Config, op: Operation, now: real)
    ensures Mints(op) ==> Minted(cfg, op, now).attemptsLeft == cfg.maxAttempts
  {
  }

  lemma StepAt(cfg: Config, s: State, op: Operation, now: real, id: ChallengeId)
    ensures var o := Step(cfg, s, op, now);
      PendingStep(cfg, s.codes, o.state.codes, op, o.answer, now, id) && LiveStep(s.codes, o.state.codes, op, o.answer, id)
      && ClearStep(s.codes, o.state.codes, op, o.answer)
  {
    hide Step;
    StepIsCodesStep(cfg, s, op, now);
    AtId(cfg, s.codes, Step(cfg, s, op, now).state.codes, op, Step(cfg, s, op, now).answer, now, id);
  }

  /** A code is judged only against a live, unexpired challenge of the purpose asked for. */
  lemma JudgedIsLive(cfg: Config, s: State, op: Operation, now: real)
    requires op.Verify?
    ensures var answer := Step(cfg, s, op, now).answer;
      answer == WrongCode || answer.Verified? ==>
        && op.id in s.codes.live && s.codes.live[op.id].expiresAt > now && s.codes.live[op.id].purpose == op.purpose
        && (answer.Verified? ==> answer.challenge == s.codes.live[op.id])
        && (answer.Verified? && op.expectedUser.Some? ==> answer.challenge.user == op.expectedUser.value)
        && (answer.Verified? && op.validator.None? ==> answer.challenge.digest == Some(Mac(op.id, op.code)))
  {
    hide Prune, FailureRecorded, AttemptSpent;
    PruneKeeps(cfg, s, now);
    RefusalsRefuse(cfg, Prune(cfg, s, now), op, now);
  }

  lemma OnlyVerifyVerifies(cfg: Config, s: State, op: Operation, now: real)
    ensures Step(cfg, s, op, now).answer.Verified? ==> op.Verify?
    ensures Step(cfg, s, op, now).answer.Issued? ==> Mints(op) && Step(cfg, s, op, now).answer.id == op.id
  {
    hide Prune, Recorded, WindowRefusal, Minted, Committed;
    RefusalsRefuse(cfg, Prune(cfg, s, now), op, now);
  }

  // -- One challenge over a run ----------------------------------------------------

  /** What has happened to an id so far. */
  datatype Tally = Tally(issued: nat, committed: nat, wrong: nat, right: nat)

  function TallyOf(cfg: Config, calls: seq<Call>, id: ChallengeId): Tally {
    if calls == [] then Tally(0, 0, 0, 0)
    else
      var n := |calls| - 1;
      var t, op := TallyOf(cfg, calls[..n], id), calls[n].op;
      var answer := Step(cfg, After(cfg, calls[..n]), op, calls[n].at).answer;
      if answer == Issued(id) then t.(issued := t.issued + 1)
      else if op.Commit? && op.id == id && answer == Accepted then t.(committed := t.committed + 1)
      else if Misses(op, answer, id) then t.(wrong := t.wrong + 1)
      else if Uses(op, answer, id) then t.(right := t.right + 1)
      else t
  }

  /** Where the challenge is in its life, given what has happened to it. */
  predicate LifeStage(cfg: Config, codes: Codes, id: ChallengeId, t: Tally) {
    && t.right <= t.committed <= t.issued <= 1 && t.wrong <= cfg.maxAttempts
    && (t.committed == 0 ==> t.wrong == 0)
    && (id in codes.pending ==> t.issued == 1 && t.committed == 0 && codes.pending[id].attemptsLeft == cfg.maxAttempts)
    && (id in codes.live ==> t.committed == 1 && t.right == 0 && codes.live[id].attemptsLeft == cfg.maxAttempts - t.wrong)
    && (id in codes.live ==> id !in codes.pending && codes.live[id].attemptsLeft >= 1)
  }

  lemma {:induction false} MintedOnce(cfg: Config, calls: seq<Call>, id: ChallengeId)
    ensures TallyOf(cfg, calls, id).issued > 0 ==> WasMinted(calls, id)
  {
    hide Step;
    if calls != [] {
      var n := |calls| - 1;
      MintedOnce(cfg, calls[..n], id);
      OnlyVerifyVerifies(cfg, After(cfg, calls[..n]), calls[n].op, calls[n].at);
      MintedLater(calls, id);
    }
  }

  lemma MintedLater(calls: seq<Call>, id: ChallengeId)
    requires calls != []
    ensures var last := calls[|calls| - 1].op;
      WasMinted(calls, id) <==> WasMinted(calls[..|calls| - 1], id) || (Mints(last) && last.id == id)
  {
    var n := |calls| - 1;
    if WasMinted(calls[..n], id) {
      var i :| 0 <= i < n && Mints(calls[..n][i].op) && calls[..n][i].op.id == id;
      assert calls[i].op == calls[..n][i].op;
    }
    if WasMinted(calls, id) {
      var i :| 0 <= i <= n && Mints(calls[i].op) && calls[i].op.id == id;
      assert i < n ==> calls[..n][i] == calls[i];
    }
  }

  /** The life cycle: in every run with fresh ids, whatever the order of the calls, an id is
      issued at most once, committed at most once and only after it was issued, verified at
      most once and only after it was committed, and judged wrong at most `maxAttempts`
      times; while it is live its attempts left are exactly what has not been used up. */
  lemma {:induction false} LifeCycle(cfg: Config, calls: seq<Call>, id: ChallengeId)
    requires FreshIds(calls)
    ensures LifeStage(cfg, After(cfg, calls).codes, id, TallyOf(cfg, calls, id))
  {
    hide Step;
    if calls != [] {
      var n := |calls| - 1;
      var before, op, now := calls[..n], calls[n].op, calls[n].at;
      LifeCycle(cfg, before, id);
      MintedOnce(cfg, before, id);
      StepAt(cfg, After(cfg, before), op, now, id);
      OnlyVerifyVerifies(cfg, After(cfg, before), op, now);
      MintedFull(cfg, op, now);
      if op.Verify? && op.id == id {
        JudgedIsLive(cfg, After(cfg, before), op, now);
      }
      if op.Commit? && op.id == id {
        CommitTakesPending(cfg, After(cfg, before), op, now);
      }
      if Mints(op) && op.id == id {
        assert !WasMinted(before, id);
      }
    }
  }

  lemma CommitTakesPending(cfg: Config, s: State, op: Operation, now: real)
    requires op.Commit?
    ensures var o := Step(cfg, s, op, now);
      && op.id !in o.state.codes.pending
      && (o.answer == Accepted ==> op.id in s.codes.pending && op.id in o.state.codes.live)
      && (o.answer == Accepted && op.supersedes.Some? ==> op.supersedes.value in s.codes.live)
      && (o.answer == Accepted || o.answer == Gone)
      && (o.answer == Gone ==> o.state.codes.live == s.codes.live)
  {
  }

  /** Every reachable store is consistent. */
  lemma {:induction false} AlwaysConsistent(cfg: Config, calls: seq<Call>)
    requires FreshIds(calls)
    ensures Consistent(cfg, After(cfg, calls).codes)
  {
    hide Step, TallyOf;
    if calls != [] {
      var n := |calls| - 1;
      AlwaysConsistent(cfg, calls[..n]);
      if Mints(calls[n].op) {
        var id := calls[n].op.id;
        LifeCycle(cfg, calls[..n], id);
        MintedOnce(cfg, calls[..n], id);
        assert !WasMinted(calls[..n], id);
      }
      StepKeepsConsistent(cfg, After(cfg, calls[..n]), calls[n].op, calls[n].at);
    }
  }

  /** Once an id has been drawn and is neither pending nor live, it never comes back. */
  lemma {:induction false} StaysDead(cfg: Config, calls: seq<Call>, more: seq<Call>, id: ChallengeId)
    requires FreshIds(calls + more) && WasMinted(calls, id) && !Holds(After(cfg, calls).codes, id)
    ensures !Holds(After(cfg, calls + more).codes, id)
  {
    hide Step;
    if more == [] {
      assert calls + more == calls;
    } else {
      var n := |more| - 1;
      var before := calls + more[..n];
      assert (calls + more)[..|calls| + n] == before;
      StaysDead(cfg, calls, more[..n], id);
      StepAt(cfg, After(cfg, before), more[n].op, more[n].at, id);
      OnlyVerifyVerifies(cfg, After(cfg, before), more[n].op, more[n].at);
      var i :| 0 <= i < |calls| && Mints(calls[i].op) && calls[i].op.id == id;
      assert (calls + more)[i] == calls[i] && (calls + more)[|calls| + n] == more[n];
    }
  }

  // -- Where a code came from ------------------------------------------------------

  /** The call issued the id. */
  predicate IssuedAt(cfg: Config, calls: seq<Call>, i: nat, id: ChallengeId) {
    i < |calls| && Mints(calls[i].op) && calls[i].op.id == id && AnswerTo(cfg, calls, i) == Issued(id)
  }

  /** The call made the id live. */
  predicate CommittedAt(cfg: Config, calls: seq<Call>, i: nat, id: ChallengeId) {
    i < |calls| && calls[i].op.Commit? && calls[i].op.id == id && AnswerTo(cfg, calls, i) == Accepted
  }

  lemma EarlierCall(cfg: Config, calls: seq<Call>, i: nat, id: ChallengeId)
    requires calls != [] && i < |calls| - 1
    ensures IssuedAt(cfg, calls, i, id) == IssuedAt(cfg, calls[..|calls| - 1], i, id)
    ensures CommittedAt(cfg, calls, i, id) == CommittedAt(cfg, calls[..|calls| - 1], i, id)
  {
    hide Step, After;
    assert calls[..|calls| - 1][..i] == calls[..i];
  }

  /** A pending challenge is, unchanged, what some call issued. */
  lemma {:induction false} PendingOrigin(cfg: Config, calls: seq<Call>, id: ChallengeId) returns (claimed: nat)
    requires id in After(cfg, calls).codes.pending
    ensures IssuedAt(cfg, calls, claimed, id)
    ensures After(cfg, calls).codes.pending[id] == Minted(cfg, calls[claimed].op, calls[claimed].at)
  {
    hide Step, IssuedAt, Minted;
    var n := |calls| - 1;
    var s, op, now := After(cfg, calls[..n]), calls[n].op, calls[n].at;
    StepAt(cfg, s, op, now, id);
    OnlyVerifyVerifies(cfg, s, op, now);
    if Step(cfg, s, op, now).answer == Issued(id) {
      claimed := n;
      IssuedLast(cfg, calls, id);
    } else {
      claimed := PendingOrigin(cfg, calls[..n], id);
      IssuedWithin(cfg, calls[..n], claimed, id);
      EarlierCall(cfg, calls, claimed, id);
    }
  }

  lemma IssuedLast(cfg: Config, calls: seq<Call>, id: ChallengeId)
    requires calls != []
    requires Mints(calls[|calls| - 1].op) && calls[|calls| - 1].op.id == id
    requires Step(cfg, After(cfg, calls[..|calls| - 1]), calls[|calls| - 1].op, calls[|calls| - 1].at).answer == Issued(id)
    ensures IssuedAt(cfg, calls, |calls| - 1, id)
  {
  }

  lemma IssuedWithin(cfg: Config, calls: seq<Call>, i: nat, id: ChallengeId)
    requires IssuedAt(cfg, calls, i, id)
    ensures i < |calls|
  {
  }

  /** A live challenge was issued, then committed; only its attempts may have changed. */
  lemma {:induction false} LiveOrigin(cfg: Config, calls: seq<Call>, id: ChallengeId) returns (claimed: nat, committed: nat)
    requires id in After(cfg, calls).codes.live
    ensures claimed < committed && IssuedAt(cfg, calls, claimed, id) && CommittedAt(cfg, calls, committed, id)
    ensures var c := After(cfg, calls).codes.live[id];
      c == Minted(cfg, calls[claimed].op, calls[claimed].at).(attemptsLeft := c.attemptsLeft)
  {
    hide Step, IssuedAt, CommittedAt, Minted;
    var n := |calls| - 1;
    var s, op, now := After(cfg, calls[..n]), calls[n].op, calls[n].at;
    StepAt(cfg, s, op, now, id);
    if op.Commit? && op.id == id && Step(cfg, s, op, now).answer == Accepted && id in s.codes.pending {
      committed := n;
      claimed := PendingOrigin(cfg, calls[..n], id);
      assert CommittedAt(cfg, calls, n, id) by { CommittedLast(cfg, calls, id); }
      CommitTakesPending(cfg, s, op, now);
      LivePending(cfg, s, op, now);
    } else {
      claimed, committed := LiveOrigin(cfg, calls[..n], id);
      CommittedWithin(cfg, calls[..n], committed, id);
      EarlierCall(cfg, calls, committed, id);
    }
    IssuedWithin(cfg, calls[..n], claimed, id);
    EarlierCall(cfg, calls, claimed, id);
  }

  lemma LivePending(cfg: Config, s: State, op: Operation, now: real)
    requires op.Commit? && Step(cfg, s, op, now).answer == Accepted
    ensures op.id in s.codes.pending && op.id in Step(cfg, s, op, now).state.codes.live
    ensures Step(cfg, s, op, now).state.codes.live[op.id] == s.codes.pending[op.id]
  {
  }

  lemma CommittedLast(cfg: Config, calls: seq<Call>, id: ChallengeId)
    requires calls != []
    requires calls[|calls| - 1].op.Commit? && calls[|calls| - 1].op.id == id
    requires Step(cfg, After(cfg, calls[..|calls| - 1]), calls[|calls| - 1].op, calls[|calls| - 1].at).answer == Accepted
    ensures CommittedAt(cfg, calls, |calls| - 1, id)
  {
  }

  lemma CommittedWithin(cfg: Config, calls: seq<Call>, i: nat, id: ChallengeId)
    requires CommittedAt(cfg, calls, i, id)
    ensures i < |calls|
  {
  }

  /** A verified code: its challenge was issued and then committed earlier in the run, to the
      same user, purpose, channel and destination, and had not yet expired. */
  lemma VerifiedOrigin(cfg: Config, calls: seq<Call>, i: nat) returns (claimed: nat, committed: nat)
    requires i < |calls| && AnswerTo(cfg, calls, i).Verified?
    ensures calls[i].op.Verify? && claimed < committed < i
    ensures IssuedAt(cfg, calls, claimed, calls[i].op.id) && CommittedAt(cfg, calls, committed, calls[i].op.id)
    ensures
      var c, minted := AnswerTo(cfg, calls, i).challenge, Minted(cfg, calls[claimed].op, calls[claimed].at);
      c == minted.(attemptsLeft := c.attemptsLeft) && c.purpose == calls[i].op.purpose && calls[i].at < minted.expiresAt
  {
    hide Step, After, Minted;
    var before, call := calls[..i], calls[i];
    OnlyVerifyVerifies(cfg, After(cfg, before), call.op, call.at);
    JudgedIsLive(cfg, After(cfg, before), call.op, call.at);
    claimed, committed := LiveOrigin(cfg, before, call.op.id);
    assert before[..claimed] == calls[..claimed] && before[..committed] == calls[..committed];
  }

  lemma {:induction false} RightStays(cfg: Config, calls: seq<Call>, n: nat, id: ChallengeId)
    requires n <= |calls|
    ensures TallyOf(cfg, calls[..n], id).right <= TallyOf(cfg, calls, id).right
  {
    hide Step, After;
    if n == |calls| {
      assert calls[..n] == calls;
    } else {
      var m := |calls| - 1;
      assert calls[..m][..n] == calls[..n];
      RightStays(cfg, calls[..m], n, id);
    }
  }

  /** A code is single use: no two calls of a run verify the same id. */
  lemma VerifiedOnce(cfg: Config, calls: seq<Call>, i: nat, j: nat)
    requires FreshIds(calls) && i < |calls| && j < |calls|
    requires AnswerTo(cfg, calls, i).Verified? && AnswerTo(cfg, calls, j).Verified? && calls[i].op.Verify? && calls[j].op.Verify?
    requires calls[i].op.id == calls[j].op.id
    ensures i == j
  {
    if i < j {
      VerifiedBefore(cfg, calls, i, j);
    } else if j < i {
      VerifiedBefore(cfg, calls, j, i);
    }
  }

  lemma VerifiedBefore(cfg: Config, calls: seq<Call>, i: nat, j: nat)
    requires FreshIds(calls) && i < j < |calls|
    requires AnswerTo(cfg, calls, i).Verified? && AnswerTo(cfg, calls, j).Verified? && calls[i].op.Verify? && calls[j].op.Verify?
    ensures calls[i].op.id != calls[j].op.id
  {
    hide Step, After;
    var id := calls[j].op.id;
    var early, late := calls[..i + 1], calls[..j];
    JudgedIsLive(cfg, After(cfg, late), calls[j].op, calls[j].at);
    LifeCycle(cfg, late, id);
    RightStays(cfg, late, i + 1, id);
    assert late[..i + 1] == early && early[..i] == calls[..i] && early[i] == calls[i];
  }

  // -- Validators ------------------------------------------------------------------

  /** Where nothing refuses the verification, the verdict decides. */
  lemma VerdictDecides(cfg: Config, s: State, op: Operation, now: real)
    requires op.Verify? && VerifyRefusal(Prune(cfg, s, now), op, now).None?
    ensures op.id in s.codes.live
    ensures
      var c := s.codes.live[op.id];
      Step(cfg, s, op, now).answer == match Judge(c, op.id, op.code, op.validator)
        case Raises => Unavailable
        case Wrong => WrongCode
        case Right => Verified(c)
  {
    hide AfterWrong, AfterRight, Judge, Prune;
    PruneKeeps(cfg, s, now);
  }

  /** A validator replaces the hash of a challenge that has one. Where nothing refuses the
      verification, the outcome is the one without a validator exactly when the validator says
      what the hash says; otherwise already the answer differs. */
  lemma ValidatorReplacesHash(cfg: Config, s: State, op: Operation, verdict: Verdict, now: real)
    requires op.Verify? && VerifyRefusal(Prune(cfg, s, now), op, now).None?
    requires op.id in s.codes.live && s.codes.live[op.id].digest.Some?
    ensures
      var validated, hashed := Step(cfg, s, op.(validator := Some(verdict)), now), Step(cfg, s, op.(validator := None), now);
      var same := verdict == Judge(s.codes.live[op.id], op.id, op.code, None);
      (same ==> validated == hashed) && (!same ==> validated.answer != hashed.answer)
  {
    hide AfterWrong, AfterRight, Prune;
    PruneKeeps(cfg, s, now);
    VerdictDecides(cfg, s, op.(validator := Some(verdict)), now);
    VerdictDecides(cfg, s, op.(validator := None), now);
  }

  /** A wrong code for a texted challenge, which a validator that accepts it lets pass. */
  lemma ValidatorOverridesHash(cfg: Config)
    ensures
      var claim := Claim(1, "123456", 7, SignIn, Sms, Some("+36301234567"), None);
      var calls := [Call(claim, 0.0), Call(Commit(1, None), 0.0)];
      && AnswerTo(cfg, calls + [Call(Verify(1, "000000", SignIn, None, None), 0.0)], 2) == WrongCode
      && AnswerTo(cfg, calls + [Call(Verify(1, "000000", SignIn, None, Some(Right)), 0.0)], 2) == Verified(Minted(cfg, claim, 0.0))
  {
    var claim := Call(Claim(1, "123456", 7, SignIn, Sms, Some("+36301234567"), None), 0.0);
    var calls := [claim, Call(Commit(1, None), 0.0)];
    var c := Minted(cfg, claim.op, 0.0);
    FirstClaimIsPending(cfg, claim.op);
    assert After(cfg, []) == EMPTY;
    assert c.digest == Some(Mac(1, "123456")) && "123456"[0] != "000000"[0] && c.expiresAt > 0.0;
    hide Step, After, Minted, AnswerTo;
    assert [] + [claim] == [claim] && [claim] + [calls[1]] == calls;
    AfterOne(cfg, [], claim);
    AfterOne(cfg, [claim], calls[1]);
    AfterOne(cfg, calls, Call(Verify(1, "000000", SignIn, None, None), 0.0));
    AfterOne(cfg, calls, Call(Verify(1, "000000", SignIn, None, Some(Right)), 0.0));
    FirstCommitIsLive(cfg, After(cfg, [claim]), 1, c, 0.0);
    OnlyLiveIsJudged(cfg, After(cfg, calls), Verify(1, "000000", SignIn, None, None), c, 0.0);
    OnlyLiveIsJudged(cfg, After(cfg, calls), Verify(1, "000000", SignIn, None, Some(Right)), c, 0.0);
  }

  lemma FirstClaimIsPending(cfg: Config, op: Operation)
    requires op.Claim?
    ensures Step(cfg, EMPTY, op, 0.0).state.codes == Codes(map[], map[op.id := Minted(cfg, op, 0.0)])
  {
    hide Minted, Recorded;
    assert Prune(cfg, EMPTY, 0.0) == EMPTY;
    assert Since([], 0.0 - cfg.window as real) == [];
  }

  lemma FirstCommitIsLive(cfg: Config, s: State, id: ChallengeId, c: Challenge, now: real)
    requires s.codes == Codes(map[], map[id := c])
    ensures Step(cfg, s, Commit(id, None), now).state.codes.live == map[id := c]
  {
  }

  lemma OnlyLiveIsJudged(cfg: Config, s: State, op: Operation, c: Challenge, now: real)
    requires op.Verify? && s.codes.live == map[op.id := c] && op.purpose == c.purpose && op.expectedUser.None?
    requires c.expiresAt > now && c.channel != Totp
    ensures Step(cfg, s, op, now).answer == match Judge(c, op.id, op.code, op.validator)
        case Raises => Unavailable
        case Wrong => WrongCode
        case Right => Verified(c)
  {
    PruneKeeps(cfg, s, now);
    hide AfterWrong, AfterRight, Judge, PruneLimits, PruneGuard;
  }
}
