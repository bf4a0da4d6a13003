/** Switching the method of a sign-in: however switches interleave while their providers are
    awaited, at most one switch away from a challenge succeeds, a code whose switch lost
    never becomes live, and until then the code the user holds keeps working. */
module AccountsSwitches {
  import opened Wrappers
  import opened Otp
  import opened OtpWindows
  import opened OtpLifecycle
  import opened Accounts
  import opened AccountsProofs
  import opened AccountsOrder

  // -- The code the user holds -----------------------------------------------------

  /** The call ends a challenge: it commits another one of the same flow, turns two-step
      verification off, or uses it. */
  predicate Ends(cfg: Config, s: State, call: Call, id: ChallengeId, c: Challenge) {
    var answer := Step(cfg, s, call.op, call.at).answer;
    match call.op
    case Commit(other, _) => answer == Accepted && other in s.codes.pending && SameFlow(s.codes.pending[other], c)
    case Invalidate(user) => user == c.user
    case _ => Uses(call.op, answer, id)
  }

  /** Or it discards it. */
  predicate TakesAway(cfg: Config, s: State, call: Call, id: ChallengeId, c: Challenge) {
    (call.op.Discard? && call.op.id == id) || Ends(cfg, s, call, id, c)
  }

  /** The wrong codes judged for a challenge during `more`. */
  function MissesIn(cfg: Config, calls: seq<Call>, more: seq<Call>, id: ChallengeId): nat {
    if more == [] then 0
    else
      var n := |more| - 1;
      var answer := Step(cfg, After(cfg, calls + more[..n]), more[n].op, more[n].at).answer;
      MissesIn(cfg, calls, more[..n], id) + if Misses(more[n].op, answer, id) then 1 else 0
  }

  predicate Untouched(cfg: Config, calls: seq<Call>, more: seq<Call>, id: ChallengeId, c: Challenge) {
    forall i :: 0 <= i < |more| ==> !TakesAway(cfg, After(cfg, calls + more[..i]), more[i], id, c)
  }

  lemma CallKeeps(cfg: Config, s: State, call: Call, id: ChallengeId)
    requires id in s.codes.live && call.at < s.codes.live[id].expiresAt && !TakesAway(cfg, s, call, id, s.codes.live[id])
    requires !(Mints(call.op) && call.op.id == id)
    requires call.op.Commit? && call.op.id == id ==> Step(cfg, s, call.op, call.at).answer != Accepted
    ensures
      var c, o := s.codes.live[id], Step(cfg, s, call.op, call.at);
      var missed := if Misses(call.op, o.answer, id) then 1 else 0;
      c.attemptsLeft > missed ==> id in o.state.codes.live && o.state.codes.live[id] == c.(attemptsLeft := c.attemptsLeft - missed)
  {
    hide Prune, ClaimRefusal, VerifyRefusal, Recorded, FailureRecorded, Judge, Minted, WindowRefusal, Lookup;
    PruneKeeps(cfg, s, call.at);
    if call.op.Verify? {
      var p := Prune(cfg, s, call.at);
      RefusalsRefuse(cfg, p, call.op, call.at);
      if VerifyRefusal(p, call.op, call.at).None? {
        VerifyLooks(p, call.op, call.at);
      }
    }
  }

  lemma LastCall(cfg: Config, calls: seq<Call>, more: seq<Call>)
    requires more != []
    ensures var n := |more| - 1;
      && (calls + more)[..|calls| + n] == calls + more[..n] && (calls + more)[|calls| + n] == more[n]
      && After(cfg, calls + more) == Step(cfg, After(cfg, calls + more[..n]), more[n].op, more[n].at).state
  {
    hide Step;
    assert (calls + more)[..|calls| + |more| - 1] == calls + more[..|more| - 1];
  }

  lemma UntouchedShorter(cfg: Config, calls: seq<Call>, more: seq<Call>, id: ChallengeId, c: Challenge)
    requires more != [] && Untouched(cfg, calls, more, id, c)
    ensures Untouched(cfg, calls, more[..|more| - 1], id, c)
    ensures !TakesAway(cfg, After(cfg, calls + more[..|more| - 1]), more[|more| - 1], id, c)
  {
    hide TakesAway, After;
    assert forall i :: 0 <= i < |more| - 1 ==> more[..|more| - 1][..i] == more[..i];
  }

  /** However the run goes on, a live challenge that no call takes away stays live, with as
      many attempts left as were not spent on it. */
  lemma {:induction false} HeldThrough(cfg: Config, calls: seq<Call>, more: seq<Call>, id: ChallengeId, c: Challenge)
    requires FreshIds(calls + more) && id in After(cfg, calls).codes.live && c == After(cfg, calls).codes.live[id]
    requires forall i :: 0 <= i < |more| ==> more[i].at < c.expiresAt
    requires Untouched(cfg, calls, more, id, c) && MissesIn(cfg, calls, more, id) < c.attemptsLeft
    ensures var live := After(cfg, calls + more).codes.live;
      id in live && live[id] == c.(attemptsLeft := c.attemptsLeft - MissesIn(cfg, calls, more, id))
  {
    hide Step, TakesAway, After, Untouched, SameFlow;
    if more == [] {
      assert calls + more == calls;
    } else {
      var n := |more| - 1;
      var before, last := calls + more[..n], more[n];
      LastCall(cfg, calls, more);
      UntouchedShorter(cfg, calls, more, id, c);
      assert FreshIds(before);
      HeldThrough(cfg, calls, more[..n], id, c);
      var d := After(cfg, before).codes.live[id];
      HeldCall(cfg, calls + more, |calls| + n, id, c, d);
    }
  }

  /** One more call, in a run that has kept the challenge so far. */
  lemma HeldCall(cfg: Config, calls: seq<Call>, i: nat, id: ChallengeId, c: Challenge, d: Challenge)
    requires FreshIds(calls) && i < |calls| && id in After(cfg, calls[..i]).codes.live && d == After(cfg, calls[..i]).codes.live[id]
    requires d == c.(attemptsLeft := d.attemptsLeft) && calls[i].at < c.expiresAt
    requires !TakesAway(cfg, After(cfg, calls[..i]), calls[i], id, c)
    ensures
      var o := Step(cfg, After(cfg, calls[..i]), calls[i].op, calls[i].at);
      var missed := if Misses(calls[i].op, o.answer, id) then 1 else 0;
      d.attemptsLeft > missed ==> id in o.state.codes.live && o.state.codes.live[id] == d.(attemptsLeft := d.attemptsLeft - missed)
  {
    hide Step, After, TakesAway;
    SameTake(cfg, After(cfg, calls[..i]), calls[i], id, c, d);
    NotAgain(cfg, calls, i, id);
    CallKeeps(cfg, After(cfg, calls[..i]), calls[i], id);
  }

  lemma SameTake(cfg: Config, s: State, call: Call, id: ChallengeId, c: Challenge, d: Challenge)
    requires SameFlow(c, d)
    ensures TakesAway(cfg, s, call, id, c) == TakesAway(cfg, s, call, id, d)
  {
    hide Step;
  }

  /** While an id is live it is neither drawn nor committed again. */
  lemma NotAgain(cfg: Config, calls: seq<Call>, i: nat, id: ChallengeId)
    requires FreshIds(calls) && i < |calls| && id in After(cfg, calls[..i]).codes.live
    ensures !(Mints(calls[i].op) && calls[i].op.id == id)
    ensures calls[i].op.Commit? && calls[i].op.id == id ==> AnswerTo(cfg, calls, i) != Accepted
  {
    hide Step;
    LifeCycle(cfg, calls[..i], id);
    MintedOnce(cfg, calls[..i], id);
    var j :| 0 <= j < i && Mints(calls[..i][j].op) && calls[..i][j].op.id == id;
    assert calls[..i][j] == calls[j];
    if calls[i].op.Commit? && calls[i].op.id == id {
      CommitTakesPending(cfg, After(cfg, calls[..i]), calls[i].op, calls[i].at);
    }
  }

  /** Nothing ends the challenge during `more`. */
  predicate Unended(cfg: Config, calls: seq<Call>, more: seq<Call>, id: ChallengeId, c: Challenge) {
    forall i :: 0 <= i < |more| ==> !Ends(cfg, After(cfg, calls + more[..i]), more[i], id, c)
  }

  lemma UnendedShorter(cfg: Config, calls: seq<Call>, more: seq<Call>, id: ChallengeId, c: Challenge)
    requires more != [] && Unended(cfg, calls, more, id, c)
    ensures Unended(cfg, calls, more[..|more| - 1], id, c)
    ensures !Ends(cfg, After(cfg, calls + more[..|more| - 1]), more[|more| - 1], id, c)
  {
    hide Ends, After;
    assert forall i :: 0 <= i < |more| - 1 ==> more[..|more| - 1][..i] == more[..i];
  }

  /** The flows never discard a code that is live, so what does not end it does not take it
      away. */
  lemma {:induction false} FlowsDiscardNothing(cfg: Config, calls: seq<Call>, more: seq<Call>, id: ChallengeId, c: Challenge)
    requires FreshIds(calls + more) && ProperCalls(cfg, calls + more)
    requires id in After(cfg, calls).codes.live && c == After(cfg, calls).codes.live[id]
    requires forall i :: 0 <= i < |more| ==> more[i].at < c.expiresAt
    requires Unended(cfg, calls, more, id, c) && MissesIn(cfg, calls, more, id) < c.attemptsLeft
    ensures Untouched(cfg, calls, more, id, c)
  {
    hide Step, After, Ends, SameFlow;
    if more != [] {
      var n := |more| - 1;
      LastCall(cfg, calls, more);
      UnendedShorter(cfg, calls, more, id, c);
      assert FreshIds(calls + more[..n]);
      ProperShorter(cfg, calls, more);
      FlowsDiscardNothing(cfg, calls, more[..n], id, c);
      HeldThrough(cfg, calls, more[..n], id, c);
      UntouchedLonger(cfg, calls, more, id, c);
    }
  }

  lemma ProperShorter(cfg: Config, calls: seq<Call>, more: seq<Call>)
    requires more != [] && ProperCalls(cfg, calls + more)
    ensures ProperCalls(cfg, calls + more[..|more| - 1])
    ensures ProperCall(cfg, calls + more[..|more| - 1], more[|more| - 1].op)
  {
    hide ProperCall;
    var n, all := |calls| + |more| - 1, calls + more;
    assert all[..n] == calls + more[..|more| - 1] && all[n] == more[|more| - 1];
    forall i | 0 <= i < n ensures ProperCall(cfg, all[..n][..i], all[..n][i].op) {
      assert all[..n][..i] == all[..i];
      assert ProperCall(cfg, all[..i], all[i].op);
    }
    assert ProperCall(cfg, all[..n], all[n].op);
  }

  lemma UntouchedLonger(cfg: Config, calls: seq<Call>, more: seq<Call>, id: ChallengeId, c: Challenge)
    requires more != [] && Untouched(cfg, calls, more[..|more| - 1], id, c)
    requires !TakesAway(cfg, After(cfg, calls + more[..|more| - 1]), more[|more| - 1], id, c)
    ensures Untouched(cfg, calls, more, id, c)
  {
    hide TakesAway, After;
    forall i | 0 <= i < |more| ensures !TakesAway(cfg, After(cfg, calls + more[..i]), more[i], id, c) {
      if i < |more| - 1 {
        assert more[..|more| - 1][..i] == more[..i] && more[..|more| - 1][i] == more[i];
        assert !TakesAway(cfg, After(cfg, calls + more[..|more| - 1][..i]), more[..|more| - 1][i], id, c);
      }
    }
  }

  /** The code the user holds keeps working: in every run of all flows, from any moment at
      which it is live (after `n` calls) for as long as no other code of that flow is
      committed, two-step verification is not turned off, and it is not used, worn out or
      expired, entering it verifies it. An authenticator code also needs the account not to
      be locked. */
  lemma HeldCodeWorks(cfg: Config, users: map<UserId, User>, actions: seq<Moment>, n: nat, id: ChallengeId, code: string,
                      validator: Option<Verdict>, now: real)
    requires n <= |Run(cfg, users, actions).calls| && Run(cfg, users, actions).clock <= now
    requires var held := After(cfg, Run(cfg, users, actions).calls[..n]).codes.live;
      id in held && Judge(held[id], id, code, validator) == Right && now < held[id].expiresAt
    requires var all := Run(cfg, users, actions).calls; var c := After(cfg, all[..n]).codes.live[id];
      && Unended(cfg, all[..n], all[n..], id, c) && MissesIn(cfg, all[..n], all[n..], id) < c.attemptsLeft
      && (c.channel == Totp ==> Unlocked(cfg, After(cfg, all), c.user, now))
    ensures
      var all := Run(cfg, users, actions).calls;
      var c := After(cfg, all[..n]).codes.live[id];
      var answer := Step(cfg, After(cfg, all), Verify(id, code, c.purpose, None, validator), now).answer;
      answer.Verified? && answer.challenge == c.(attemptsLeft := answer.challenge.attemptsLeft)
  {
    hide Run, Step, After, Untouched, Unended, MissesIn, Unlocked, ProperCalls, Dead, NeverLive, InOrder, SendsApart, AllGrounded, Linear;
    var all := Run(cfg, users, actions).calls;
    var calls, more := all[..n], all[n..];
    assert calls + more == all;
    EveryRunIsSound(cfg, users, actions);
    EveryRunIsOrderly(cfg, users, actions);
    FlowsDiscardNothing(cfg, calls, more, id, After(cfg, calls).codes.live[id]);
    HeldThrough(cfg, calls, more, id, After(cfg, calls).codes.live[id]);
    RightCodeVerifies(cfg, After(cfg, all), id, code, validator, now);
  }

  predicate Unlocked(cfg: Config, s: State, user: UserId, now: real) {
    LockRefusal(Prune(cfg, s, now).guard, user, now).None?
  }

  lemma RightCodeVerifies(cfg: Config, s: State, id: ChallengeId, code: string, validator: Option<Verdict>, now: real)
    requires id in s.codes.live && s.codes.live[id].expiresAt > now
    requires Judge(s.codes.live[id], id, code, validator) == Right
    requires s.codes.live[id].channel == Totp ==> Unlocked(cfg, s, s.codes.live[id].user, now)
    ensures Step(cfg, s, Verify(id, code, s.codes.live[id].purpose, None, validator), now).answer == Verified(s.codes.live[id])
  {
    hide Prune, LockRefusal;
    PruneKeeps(cfg, s, now);
  }

  // -- Switches --------------------------------------------------------------------

  /** Method switches: in every run, at most one switch away from a challenge succeeds, and
      that challenge is then gone; a challenge whose commit was refused has never been live
      and never will be, so no code of it was or can be verified. */
  lemma AtMostOneSwitch(cfg: Config, users: map<UserId, User>, actions: seq<Moment>)
    ensures var sys := Run(cfg, users, actions);
      && (forall i, j :: 0 <= i < j < |sys.switched| ==> sys.switched[i] != sys.switched[j])
      && (forall i :: 0 <= i < |sys.switched| ==> Dead(cfg, sys.calls, sys.switched[i]))
      && (forall id :: id in sys.lost ==> Dead(cfg, sys.calls, id) && NeverLive(cfg, sys.calls, id))
  {
    hide Run, Dead, NeverLive, InOrder, SendsApart;
    EveryRunIsOrderly(cfg, users, actions);
  }

  /** A validator never overrules a digest: in every run, whenever a code is put to a validator
      the challenge is live and has no digest, whatever the answer; otherwise the code is not
      looked at. */
  lemma ValidatorsJudgeAuthenticators(cfg: Config, users: map<UserId, User>, actions: seq<Moment>, i: nat)
    requires i < |Run(cfg, users, actions).calls|
    requires var op := Run(cfg, users, actions).calls[i].op; op.Verify? && op.validator.Some?
    ensures
      var calls := Run(cfg, users, actions).calls;
      var live := After(cfg, calls[..i]).codes.live;
      AnswerTo(cfg, calls, i) == Gone || (calls[i].op.id in live && live[calls[i].op.id].digest.None?)
  {
    hide Run, After, Dead, NeverLive, InOrder, SendsApart;
    var calls := Run(cfg, users, actions).calls;
    EveryRunIsOrderly(cfg, users, actions);
    assert ProperCall(cfg, calls[..i], calls[i].op);
    if calls[i].op.id !in After(cfg, calls[..i]).codes.live {
      NotLiveIsGone(cfg, After(cfg, calls[..i]), calls[i].op, calls[i].at);
    }
  }

  lemma NotLiveIsGone(cfg: Config, s: State, op: Operation, now: real)
    requires op.Verify? && op.id !in s.codes.live
    ensures Step(cfg, s, op, now).answer == Gone
  {
    PruneKeeps(cfg, s, now);
    hide PruneLimits, PruneGuard;
  }

  /** Recovering a password never spends a client address's sends: in every run, no call of
      the recovery flow is counted at any. */
  lemma RecoverySparesAddresses(cfg: Config, users: map<UserId, User>, actions: seq<Moment>, i: nat, address: Address)
    requires i < |Run(cfg, users, actions).calls|
    requires var op := Run(cfg, users, actions).calls[i].op; op.ReserveRequest? || (Mints(op) && op.purpose == PasswordReset)
    ensures var calls := Run(cfg, users, actions).calls;
      History(cfg, calls[..i + 1], Sends(address)) == History(cfg, calls[..i], Sends(address))
  {
    hide Run, Step, After, Dead, NeverLive, InOrder, SendsApart;
    var calls := Run(cfg, users, actions).calls;
    EveryRunIsOrderly(cfg, users, actions);
    assert ProperCall(cfg, calls[..i], calls[i].op);
    assert calls[..i + 1][..i] == calls[..i] && calls[..i + 1][i] == calls[i];
    assert History(cfg, calls[..i], Sends(address)) + [] == History(cfg, calls[..i], Sends(address));
  }
}
