/** What a completed password reset ends, and when it leaves nothing of the account in flight.
    The reset drops the user's live codes and authorizations; a code whose send is awaited and
    a request that is past its check outlive it (password_reset_service.py). */
module AccountsResets {
  import opened Wrappers
  import opened Otp
  import opened OtpLifecycle
  import opened Accounts
  import opened AccountsProofs
  import opened AccountsSteps

  // -- The codes -------------------------------------------------------------------

  /** The step with which a reset returns, and whose it is. */
  predicate Returns(sys: System, m: Moment, user: UserId) {
    m.action.PasswordRefreshed? && m.at >= sys.clock && Waits(sys, m.action.task)
    && sys.tasks[m.action.task] == PasswordSet(user)
  }

  /** The user's challenge is live, and lasts beyond `since`. */
  predicate Usable(codes: Codes, id: ChallengeId, user: UserId, since: real) {
    id in codes.live && codes.live[id].user == user && codes.live[id].expiresAt > since
  }

  /** It is claimed, and lasts beyond `since`. */
  predicate Claimed(codes: Codes, id: ChallengeId, user: UserId, since: real) {
    id in codes.pending && codes.pending[id].user == user && codes.pending[id].expiresAt > since
  }

  /** The store holds a challenge of the user under this id, live or claimed. */
  predicate HoldsFor(codes: Codes, id: ChallengeId, user: UserId) {
    (id in codes.live && codes.live[id].user == user) || (id in codes.pending && codes.pending[id].user == user)
  }

  lemma PendingOutlives(cfg: Config, calls: seq<Call>, user: UserId, at: real)
    ensures After(cfg, calls + [Call(Invalidate(user), at)]).codes.pending == After(cfg, calls).codes.pending
  {
    hide After;
    AfterOne(cfg, calls, Call(Invalidate(user), at));
  }

  /** Of the user's codes the return leaves exactly those that were claimed and not yet sent. */
  lemma LeftByReturn(cfg: Config, sys: System, m: Moment, user: UserId, id: ChallengeId)
    requires Returns(sys, m, user)
    ensures
      var before, after := After(cfg, sys.calls).codes, After(cfg, Next(cfg, sys, m.action, m.at).calls).codes;
      HoldsFor(after, id, user) <==> id in before.pending && before.pending[id].user == user
  {
    hide After, Next;
    ReturnClears(cfg, sys, m, user);
    PendingOutlives(cfg, sys.calls, user, m.at);
  }

  /** A challenge of the user that has become usable since was committed since. */
  lemma {:induction false} UsableSince(cfg: Config, calls: seq<Call>, m: nat, i: nat, id: ChallengeId, user: UserId, since: real) returns (j: nat)
    requires m <= i <= |calls|
    requires !Usable(After(cfg, calls[..m]).codes, id, user, since) && Usable(After(cfg, calls[..i]).codes, id, user, since)
    ensures m <= j < i && calls[j].op.Commit? && calls[j].op.id == id && AnswerTo(cfg, calls, j) == Accepted
    ensures Claimed(After(cfg, calls[..j]).codes, id, user, since)
  {
    hide Step;
    var n := i - 1;
    assert m < i;
    assert calls[..i][..n] == calls[..n] && calls[..i][n] == calls[n];
    var s := After(cfg, calls[..n]);
    StepAt(cfg, s, calls[n].op, calls[n].at, id);
    if Usable(s.codes, id, user, since) {
      j := UsableSince(cfg, calls, m, n, id, user, since);
    } else {
      j := n;
    }
  }

  // -- The authorizations ----------------------------------------------------------

  /** The authorizations of the user were all minted at `since` or later. */
  ghost predicate MintedSince(sys: System, user: UserId, since: real) {
    forall k :: k in sys.authorizations && sys.authorizations[k].user == user ==> sys.authorizations[k].mintedAt >= since
  }

  lemma PerformMintsNow(cfg: Config, a: System, action: Action, at: real, user: UserId, since: real)
    requires MintedSince(a, user, since) && since <= at
    ensures MintedSince(Perform(cfg, a, action, at), user, since)
  {
    if action.ProvenLoaded? || action.ResetAsked? || action.PasswordRefreshed? {
      hide UseProof, AskReset, RefreshPassword;
      MintsNow(cfg, a, action, at, user, since);
    } else {
      hide Perform;
      OthersKeepAuthorizations(cfg, a, action, at);
    }
  }

  lemma MintsNow(cfg: Config, a: System, action: Action, at: real, user: UserId, since: real)
    requires MintedSince(a, user, since) && since <= at
    ensures action.ProvenLoaded? ==> MintedSince(UseProof(cfg, a, action.task, action.token, at), user, since)
    ensures action.ResetAsked? ==> MintedSince(AskReset(a, action.task, action.token, at), user, since)
    ensures action.PasswordRefreshed? ==> MintedSince(RefreshPassword(a, action.task, at), user, since)
  {
  }

  lemma {:induction false} MintedAfterwards(cfg: Config, users: map<UserId, User>, actions: seq<Moment>, n: nat, user: UserId)
    requires n < |actions| && Returns(Run(cfg, users, actions[..n]), actions[n], user)
    ensures Run(cfg, users, actions).clock >= actions[n].at && MintedSince(Run(cfg, users, actions), user, actions[n].at)
  {
    hide Perform, MintedSince, Run, Sound, SaneCalls, MintedBy;
    var last := |actions| - 1;
    var before := Run(cfg, users, actions[..last]);
    assert actions[..last + 1] == actions;
    RunNext(cfg, users, actions, last);
    if n == last {
      ReturnClears(cfg, before, actions[n], user);
    } else {
      assert actions[..last][..n] == actions[..n];
      MintedAfterwards(cfg, users, actions[..last], n, user);
      EveryRunIsSound(cfg, users, actions[..last]);
      NextMints(cfg, before, actions[last], user, actions[n].at);
    }
  }

  lemma NextMints(cfg: Config, sys: System, m: Moment, user: UserId, since: real)
    requires SaneCalls(sys) && MintedSince(sys, user, since) && sys.clock >= since
    ensures var b := Next(cfg, sys, m.action, m.at); MintedSince(b, user, since) && b.clock >= since
  {
    hide Perform, SaneCalls;
    if m.at >= sys.clock {
      var now := sys.(clock := m.at);
      LaterIsSane(sys, m.at);
      PerformMintsNow(cfg, now, m.action, m.at, user, since);
      PerformSane(cfg, now, m.action);
    }
  }

  /** The moment a reset returns. */
  lemma ReturnClears(cfg: Config, sys: System, m: Moment, user: UserId)
    requires Returns(sys, m, user)
    ensures
      var b := Next(cfg, sys, m.action, m.at);
      && b.clock == m.at && MintedSince(b, user, m.at) && b.calls == sys.calls + [Call(Invalidate(user), m.at)]
      && forall id :: id in After(cfg, b.calls).codes.live ==> After(cfg, b.calls).codes.live[id].user != user
  {
    CompleteClears(cfg, sys.(clock := m.at), m.action.task, m.at);
    hide After, Step;
  }

  /** The live codes: in every run, a code of the user that is verified after the return was
      committed after it. */
  lemma ResetEndsWhatWasLive(cfg: Config, users: map<UserId, User>, actions: seq<Moment>, n: nat, user: UserId, i: nat) returns (j: nat)
    requires n < |actions| && Returns(Run(cfg, users, actions[..n]), actions[n], user)
    requires |Run(cfg, users, actions[..n + 1]).calls| <= i < |Run(cfg, users, actions).calls|
    requires var calls := Run(cfg, users, actions).calls;
      calls[i].op.Verify? && AnswerTo(cfg, calls, i).Verified? && AnswerTo(cfg, calls, i).challenge.user == user
    ensures
      var calls := Run(cfg, users, actions).calls;
      && |Run(cfg, users, actions[..n + 1]).calls| <= j < i
      && calls[j].op.Commit? && calls[j].op.id == calls[i].op.id && AnswerTo(cfg, calls, j) == Accepted
  {
    hide Run, Step, Returns;
    var calls := Run(cfg, users, actions).calls;
    var m := |Run(cfg, users, actions[..n + 1]).calls|;
    RunNext(cfg, users, actions, n);
    ReturnClears(cfg, Run(cfg, users, actions[..n]), actions[n], user);
    RunAsks(cfg, users, actions, n + 1);
    assert calls[..m] == Run(cfg, users, actions[..n + 1]).calls;
    VerifiedIsUsable(cfg, calls, i, user);
    hide After;
    j := UsableSince(cfg, calls, m, i, calls[i].op.id, user, calls[i].at);
  }

  lemma VerifiedIsUsable(cfg: Config, calls: seq<Call>, i: nat, user: UserId)
    requires i < |calls| && calls[i].op.Verify? && AnswerTo(cfg, calls, i).Verified? && AnswerTo(cfg, calls, i).challenge.user == user
    ensures Usable(After(cfg, calls[..i]).codes, calls[i].op.id, user, calls[i].at)
  {
    JudgedIsLive(cfg, After(cfg, calls[..i]), calls[i].op, calls[i].at);
    hide Step, After;
  }

}
