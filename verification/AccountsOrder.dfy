/** What every run of the account flows keeps about the codes its requests hold: whose they
    are, which of them can still become live, and how the store is used at all. */
module AccountsOrder {
  import opened Wrappers
  import opened Otp
  import opened OtpLifecycle
  import opened Accounts
  import opened AccountsProofs

  // -- What requests hold ----------------------------------------------------------

  /** The code has never been live. */
  predicate NeverLive(cfg: Config, calls: seq<Call>, id: ChallengeId) {
    TallyOf(cfg, calls, id).committed == 0
  }

  /** Drawn, and gone for good. */
  predicate Dead(cfg: Config, calls: seq<Call>, id: ChallengeId) {
    WasMinted(calls, id) && !Holds(After(cfg, calls).codes, id)
  }

  /** The challenge a switch moves away from: the user's own sign-in challenge, or dead. */
  predicate Own(cfg: Config, calls: seq<Call>, id: ChallengeId, user: UserId) {
    var codes := After(cfg, calls).codes;
    WasMinted(calls, id) && id !in codes.pending
    && (id in codes.live ==> codes.live[id].user == user && codes.live[id].purpose == SignIn)
  }

  /** The challenge whose send is awaited: not live, and pending, if at all, for its user. */
  predicate Awaited(cfg: Config, calls: seq<Call>, id: ChallengeId, user: UserId, purpose: Purpose) {
    var codes := After(cfg, calls).codes;
    WasMinted(calls, id) && id !in codes.live && NeverLive(cfg, calls, id)
    && (id in codes.pending ==> codes.pending[id].user == user && codes.pending[id].purpose == purpose)
  }

  /** While it is pending it has the digest of the code that is being sent. */
  predicate Texted(cfg: Config, calls: seq<Call>, id: ChallengeId) {
    var pending := After(cfg, calls).codes.pending;
    id in pending ==> pending[id].digest.Some?
  }

  predicate Supersedes(cfg: Config, calls: seq<Call>, user: UserId, purpose: Purpose, supersedes: Option<ChallengeId>) {
    supersedes.Some? ==> purpose == SignIn && Own(cfg, calls, supersedes.value, user)
  }

  /** The challenge an authenticator code is about to be judged for: if it is still live it is
      the owner's, and has no digest. */
  predicate OwnAuthenticator(cfg: Config, calls: seq<Call>, id: ChallengeId, flow: Purpose, owner: UserId) {
    var codes := After(cfg, calls).codes;
    WasMinted(calls, id) && id !in codes.pending
    && (id in codes.live ==> codes.live[id].digest.None? && (flow != VerifyContact ==> codes.live[id].user == owner))
  }

  predicate InOrder(cfg: Config, calls: seq<Call>, task: Task) {
    match task
    case LoadingOwner(flow, challenge, _, owner, expected) =>
      OwnAuthenticator(cfg, calls, challenge, flow, owner) && (flow == VerifyContact ==> expected == Some(owner))
    case Switching(challenge, user) => Own(cfg, calls, challenge, user)
    case Sending(id, user, purpose, supersedes) =>
      Awaited(cfg, calls, id, user, purpose) && Texted(cfg, calls, id) && Supersedes(cfg, calls, user, purpose, supersedes)
    case _ => true
  }

  /** No two requests await a send of the same challenge. */
  ghost predicate SendsApart(tasks: map<TaskId, Task>) {
    forall t, u :: t in tasks && u in tasks && tasks[t].Sending? && tasks[u].Sending? && tasks[t].id == tasks[u].id ==> t == u
  }

  /** How the flows use the store: a code is never sent for an authenticator, a recovery code
      is not counted at a client address, only a code that was never live is discarded, and a
      validator only ever judges a challenge without a digest. */
  predicate ProperCall(cfg: Config, calls: seq<Call>, op: Operation) {
    var live := After(cfg, calls).codes.live;
    && (op.Claim? ==> op.channel != Totp && (op.purpose == PasswordReset ==> op.address.None?))
    && (op.Discard? ==> op.id !in live)
    && (op.Verify? && op.validator.Some? && op.id in live ==> live[op.id].digest.None?)
  }

  ghost predicate ProperCalls(cfg: Config, calls: seq<Call>) {
    forall i :: 0 <= i < |calls| ==> ProperCall(cfg, calls[..i], calls[i].op)
  }

  ghost predicate Orderly(cfg: Config, sys: System) {
    && ProperCalls(cfg, sys.calls)
    && (forall i :: 0 <= i < |sys.switched| ==> Dead(cfg, sys.calls, sys.switched[i]))
    && (forall i, j :: 0 <= i < j < |sys.switched| ==> sys.switched[i] != sys.switched[j])
    && (forall id :: id in sys.lost ==> Dead(cfg, sys.calls, id) && NeverLive(cfg, sys.calls, id))
    && (forall t :: t in sys.tasks ==> InOrder(cfg, sys.calls, sys.tasks[t]))
    && SendsApart(sys.tasks)
  }

  /** The id is not one another request is about to commit. */
  predicate NotSent(sys: System, id: ChallengeId) {
    forall t :: t in sys.tasks && sys.tasks[t].Sending? ==> sys.tasks[t].id != id
  }

  lemma MintedMore(calls: seq<Call>, call: Call, id: ChallengeId)
    ensures WasMinted(calls + [call], id) <==> WasMinted(calls, id) || (Mints(call.op) && call.op.id == id)
  {
    assert (calls + [call])[..|calls|] == calls;
    MintedLater(calls + [call], id);
  }

  /** What one call does to an id that has been drawn before. */
  lemma OldId(cfg: Config, calls: seq<Call>, call: Call, id: ChallengeId)
    requires WasMinted(calls, id) && (Mints(call.op) ==> !WasMinted(calls, call.op.id))
    ensures
      var a, b := After(cfg, calls).codes, After(cfg, calls + [call]).codes;
      && WasMinted(calls + [call], id)
      && (id in b.pending ==> id in a.pending && b.pending[id] == a.pending[id])
      && (id in b.live ==> (id in a.live && b.live[id] == a.live[id].(attemptsLeft := b.live[id].attemptsLeft)) || (call.op.Commit? && call.op.id == id && id in a.pending))
      && (NeverLive(cfg, calls, id) && !(call.op.Commit? && call.op.id == id && Step(cfg, After(cfg, calls), call.op, call.at).answer == Accepted)
          ==> NeverLive(cfg, calls + [call], id))
  {
    hide Step;
    MintedMore(calls, call, id);
    assert (calls + [call])[..|calls|] == calls;
    StepAt(cfg, After(cfg, calls), call.op, call.at, id);
    OnlyVerifyVerifies(cfg, After(cfg, calls), call.op, call.at);
  }

  lemma OldTask(cfg: Config, calls: seq<Call>, call: Call, task: Task)
    requires InOrder(cfg, calls, task) && (Mints(call.op) ==> !WasMinted(calls, call.op.id))
    requires task.Sending? && call.op.Commit? ==> call.op.id != task.id
    ensures InOrder(cfg, calls + [call], task)
  {
    hide After, WasMinted;
    match task
    case LoadingOwner(_, challenge, _, _, _) => OldId(cfg, calls, call, challenge);
    case Switching(challenge, user) => OldId(cfg, calls, call, challenge);
    case Sending(id, user, purpose, supersedes) =>
      OldId(cfg, calls, call, id);
      if supersedes.Some? {
        OldId(cfg, calls, call, supersedes.value);
      }
    case _ =>
  }

  lemma AskedIsOrderly(cfg: Config, a: System, op: Operation, at: real)
    requires Orderly(cfg, a) && (Mints(op) ==> NewId(a, op.id)) && (op.Commit? ==> NotSent(a, op.id))
    requires ProperCall(cfg, a.calls, op)
    ensures Orderly(cfg, Asked(a, op, at))
  {
    hide Step, After, WasMinted, InOrder, NeverLive, ProperCall, ProperCalls;
    var call := Call(op, at);
    MoreProperCalls(cfg, a.calls, call);
    forall id | Dead(cfg, a.calls, id)
      ensures Dead(cfg, a.calls + [call], id) && (NeverLive(cfg, a.calls, id) ==> NeverLive(cfg, a.calls + [call], id))
    {
      OldId(cfg, a.calls, call, id);
      if op.Commit? {
        CommitTakesPending(cfg, After(cfg, a.calls), op, at);
      }
    }
    forall t | t in a.tasks ensures InOrder(cfg, a.calls + [call], a.tasks[t]) {
      OldTask(cfg, a.calls, call, a.tasks[t]);
    }
  }

  lemma MoreProperCalls(cfg: Config, calls: seq<Call>, call: Call)
    requires ProperCalls(cfg, calls) && ProperCall(cfg, calls, call.op)
    ensures ProperCalls(cfg, calls + [call])
  {
    hide ProperCall;
    forall i | 0 <= i < |calls + [call]| ensures ProperCall(cfg, (calls + [call])[..i], (calls + [call])[i].op) {
      assert (calls + [call])[..i] == calls[..i] && calls[..|calls|] == calls;
    }
  }

  /** One request goes on to something orderly. */
  lemma BegunIsOrderly(cfg: Config, a: System, t: TaskId, task: Task)
    requires Orderly(cfg, a) && InOrder(cfg, a.calls, task)
    requires task.Sending? ==> forall u :: u in a.tasks && u != t && a.tasks[u].Sending? ==> a.tasks[u].id != task.id
    ensures Orderly(cfg, Begin(a, t, task)) && Orderly(cfg, End(a, t))
  {
    hide InOrder, Dead, NeverLive, ProperCalls;
  }

  /** A commit: it supersedes a challenge at most once, and if it is refused its own
      challenge is dead. */
  lemma CommitOutcome(cfg: Config, calls: seq<Call>, id: ChallengeId, supersedes: Option<ChallengeId>, user: UserId, purpose: Purpose, at: real)
    requires Awaited(cfg, calls, id, user, purpose) && Supersedes(cfg, calls, user, purpose, supersedes)
    ensures
      var more := calls + [Call(Commit(id, supersedes), at)];
      var answer := Step(cfg, After(cfg, calls), Commit(id, supersedes), at).answer;
      if answer == Accepted then
        supersedes.Some? ==> !Dead(cfg, calls, supersedes.value) && Dead(cfg, more, supersedes.value)
      else Dead(cfg, more, id) && NeverLive(cfg, more, id)
  {
    hide Step;
    var op := Commit(id, supersedes);
    var call := Call(op, at);
    assert (calls + [call])[..|calls|] == calls;
    CommitTakesPending(cfg, After(cfg, calls), op, at);
    OldId(cfg, calls, call, id);
    if supersedes.Some? {
      OldId(cfg, calls, call, supersedes.value);
      StepAt(cfg, After(cfg, calls), op, at, supersedes.value);
    }
  }

  lemma InstallIsOrderly(cfg: Config, a: System, t: TaskId, id: ChallengeId, purpose: Purpose, supersedes: Option<ChallengeId>, user: UserId, at: real)
    requires Orderly(cfg, a) && Awaited(cfg, a.calls, id, user, purpose) && Supersedes(cfg, a.calls, user, purpose, supersedes)
    requires forall u :: u in a.tasks && u != t && a.tasks[u].Sending? ==> a.tasks[u].id != id
    ensures Orderly(cfg, Install(cfg, a, t, id, purpose, supersedes, at))
  {
    hide Step, After, InOrder, Dead, Awaited, Supersedes, NeverLive, ProperCalls;
    var ended, op := End(a, t), Commit(id, supersedes);
    EndIsOrderly(cfg, a, t);
    CommitOutcome(cfg, a.calls, id, supersedes, user, purpose, at);
    AskedIsOrderly(cfg, ended, op, at);
    var committed := Asked(ended, op, at);
    if Answered(cfg, a, op, at) == Accepted {
      var switched := if supersedes.Some? then committed.switched + [supersedes.value] else committed.switched;
      AskedIsOrderly(cfg, committed.(switched := switched), RequireLive(id, purpose), at);
    }
  }

  lemma EndIsOrderly(cfg: Config, a: System, t: TaskId)
    requires Orderly(cfg, a)
    ensures Orderly(cfg, End(a, t))
  {
    hide InOrder, Dead, NeverLive, ProperCalls;
  }

  /** A claim that was answered with an id: the id is new, pending for its user, and awaited. */
  lemma ClaimIsAwaited(cfg: Config, calls: seq<Call>, op: Operation, at: real)
    requires Mints(op) && !WasMinted(calls, op.id) && FreshIds(calls)
    requires Step(cfg, After(cfg, calls), op, at).answer == Issued(op.id)
    ensures Awaited(cfg, calls + [Call(op, at)], op.id, op.user, op.purpose)
    ensures op.Claim? ==> Texted(cfg, calls + [Call(op, at)], op.id)
  {
    hide Step;
    var call := Call(op, at);
    assert (calls + [call])[..|calls|] == calls;
    MintedMore(calls, call, op.id);
    LifeCycle(cfg, calls, op.id);
    MintedOnce(cfg, calls, op.id);
    StepAt(cfg, After(cfg, calls), op, at, op.id);
    MintedFor(cfg, op, at);
  }

  lemma MintedFor(cfg: Config, op: Operation, at: real)
    requires Mints(op)
    ensures Minted(cfg, op, at).user == op.user && Minted(cfg, op, at).purpose == op.purpose
    ensures op.Claim? ==> Minted(cfg, op, at).digest.Some?
  {
  }

  /** No request awaits a send of an id that has not been drawn. */
  lemma NewIdIsNotSent(cfg: Config, a: System, id: ChallengeId)
    requires Orderly(cfg, a) && NewId(a, id)
    ensures NotSent(a, id)
  {
    hide After, WasMinted, Dead, Supersedes, NeverLive, ProperCalls;
  }

  lemma StartIsOrderly(cfg: Config, a: System, t: TaskId, op: Operation, supersedes: Option<ChallengeId>, at: real)
    requires Orderly(cfg, a) && SaneCalls(a) && Mints(op) && NewId(a, op.id)
    requires Supersedes(cfg, a.calls, op.user, op.purpose, supersedes) && ProperCall(cfg, a.calls, op)
    ensures op.Claim? ==> Orderly(cfg, StartSend(cfg, a, t, op, supersedes, at))
    ensures op.ClaimTotp? ==> Orderly(cfg, StartTotp(cfg, a, t, op, supersedes, at))
  {
    hide Step, After, Orderly, Awaited, Texted, Install, WasMinted, Supersedes;
    var claimed := Asked(a, op, at);
    NewIdIsNotSent(cfg, a, op.id);
    AskedIsOrderly(cfg, a, op, at);
    EndIsOrderly(cfg, claimed, t);
    OldSupersedes(cfg, a.calls, Call(op, at), op.user, op.purpose, supersedes);
    if Answered(cfg, a, op, at) == Issued(op.id) {
      ClaimIsAwaited(cfg, a.calls, op, at);
      if op.Claim? {
        BegunIsOrderly(cfg, claimed, t, Sending(op.id, op.user, op.purpose, supersedes));
      }
      InstallIsOrderly(cfg, claimed, t, op.id, op.purpose, supersedes, op.user, at);
    }
  }

  lemma OldSupersedes(cfg: Config, calls: seq<Call>, call: Call, user: UserId, purpose: Purpose, supersedes: Option<ChallengeId>)
    requires Supersedes(cfg, calls, user, purpose, supersedes) && (Mints(call.op) ==> !WasMinted(calls, call.op.id))
    ensures Supersedes(cfg, calls + [call], user, purpose, supersedes)
  {
    hide After, WasMinted;
    if supersedes.Some? {
      OldId(cfg, calls, call, supersedes.value);
    }
  }

  /** A challenge that has been read as live has been drawn and is not pending. */
  lemma ReadIsLive(cfg: Config, calls: seq<Call>, challenge: ChallengeId, purpose: Purpose, at: real)
    requires FreshIds(calls)
    ensures
      var answer, codes := Step(cfg, After(cfg, calls), RequireLive(challenge, purpose), at).answer, After(cfg, calls).codes;
      answer.Live? ==>
        && WasMinted(calls, challenge) && challenge !in codes.pending && challenge in codes.live
        && codes.live[challenge] == answer.challenge && answer.challenge.purpose == purpose
  {
    hide Prune, WasMinted;
    PruneKeeps(cfg, After(cfg, calls), at);
    LifeCycle(cfg, calls, challenge);
    MintedOnce(cfg, calls, challenge);
    hide After, TallyOf;
  }

  /** In the flows an authenticator challenge has no digest: only sent codes are claimed with one. */
  lemma AuthenticatorHasNoDigest(cfg: Config, calls: seq<Call>, id: ChallengeId)
    requires ProperCalls(cfg, calls) && id in After(cfg, calls).codes.live && After(cfg, calls).codes.live[id].channel == Totp
    ensures After(cfg, calls).codes.live[id].digest.None?
  {
    hide Step, After;
    var claimed, committed := LiveOrigin(cfg, calls, id);
    assert ProperCall(cfg, calls[..claimed], calls[claimed].op);
  }

  // -- Every run -------------------------------------------------------------------

  lemma LoginIsOrderly(cfg: Config, a: System, t: TaskId, user: UserId, row: User, chosen: Option<Channel>,
                       supersedes: Option<ChallengeId>, send: SendInput, at: real)
    requires Orderly(cfg, a) && SaneCalls(a) && NewId(a, send.id) && Supersedes(cfg, a.calls, user, SignIn, supersedes)
    ensures Orderly(cfg, StartLogin(cfg, a, t, user, row, chosen, supersedes, send, at))
  {
    hide Orderly, SaneCalls, NewId, Supersedes, StartTotp, StartSend, DestinationFor;
    EndIsOrderly(cfg, a, t);
    StartIsOrderly(cfg, a, t, ClaimTotp(send.id, user, SignIn, None, true), supersedes, at);
    if chosen.Some? && chosen != Some(Totp) {
      var claim := Claim(send.id, send.code, user, SignIn, chosen.value, DestinationFor(row, chosen.value), send.address);
      StartIsOrderly(cfg, a, t, claim, supersedes, at);
    }
  }

  /** A request moves on without asking anything of the store. */
  lemma MoveIsOrderly(cfg: Config, a: System, b: System, t: TaskId)
    requires Orderly(cfg, a) && b.calls == a.calls && b.switched == a.switched && b.lost == a.lost
    requires b.tasks == a.tasks || b.tasks == a.tasks - {t}
      || (t in b.tasks && b.tasks == a.tasks[t := b.tasks[t]] && !b.tasks[t].Sending? && !b.tasks[t].Switching? && !b.tasks[t].LoadingOwner?)
    ensures Orderly(cfg, b)
  {
    hide Dead, NeverLive, Own, Awaited, Texted, Supersedes, OwnAuthenticator, ProperCalls;
  }

  /** The store is asked something that mints and commits nothing, then the request moves on. */
  lemma AskIsOrderly(cfg: Config, a: System, b: System, t: TaskId, op: Operation, at: real)
    requires Orderly(cfg, a) && !Mints(op) && !op.Commit? && ProperCall(cfg, a.calls, op)
    requires b.calls == Asked(a, op, at).calls && b.switched == a.switched && b.lost == a.lost
    requires b.tasks == a.tasks || b.tasks == a.tasks - {t}
      || (t in b.tasks && b.tasks == a.tasks[t := b.tasks[t]] && !b.tasks[t].Sending? && !b.tasks[t].Switching? && !b.tasks[t].LoadingOwner?)
    ensures Orderly(cfg, b)
  {
    hide Orderly;
    AskedIsOrderly(cfg, a, op, at);
    MoveIsOrderly(cfg, Asked(a, op, at), b, t);
  }

  lemma FirstFactorOrderly(cfg: Config, a: System, t: TaskId, send: SendInput, at: real)
    requires Orderly(cfg, a) && SaneCalls(a)
    ensures Orderly(cfg, PassFirstFactor(cfg, a, t, send, at))
  {
    hide Orderly, SaneCalls, NewId, StartLogin, DefaultChannel;
    EndIsOrderly(cfg, a, t);
    if Waits(a, t) && a.tasks[t].Identified? {
      var Identified(user, row, loadedAt) := a.tasks[t];
      MoveIsOrderly(cfg, a, Begin(a, t, Issuing(user, loadedAt, None)), t);
      if NewId(a, send.id) {
        LoginIsOrderly(cfg, a, t, user, row, DefaultChannel(row), None, send, at);
      }
    }
  }

  lemma AskSwitchOrderly(cfg: Config, a: System, t: TaskId, challenge: ChallengeId, at: real)
    requires Orderly(cfg, a) && SaneCalls(a)
    ensures Orderly(cfg, AskSwitch(cfg, a, t, challenge, at))
  {
    hide Orderly, Step, After;
    var look := RequireLive(challenge, SignIn);
    AskedIsOrderly(cfg, a, look, at);
    ReadIsLive(cfg, a.calls, challenge, SignIn, at);
    if Answered(cfg, a, look, at).Live? {
      var user := Answered(cfg, a, look, at).challenge.user;
      assert Own(cfg, a.calls, challenge, user);
      OldTask(cfg, a.calls, Call(look, at), Switching(challenge, user));
      BegunIsOrderly(cfg, Asked(a, look, at), t, Switching(challenge, user));
    }
  }

  lemma PassSwitchOrderly(cfg: Config, a: System, t: TaskId, channel: Channel, send: SendInput, at: real)
    requires Orderly(cfg, a) && SaneCalls(a)
    ensures Orderly(cfg, PassSwitch(cfg, a, t, channel, send, at))
  {
    hide SaneCalls, NewId, StartLogin, Own, Dead, NeverLive;
    EndIsOrderly(cfg, a, t);
    if Waits(a, t) && a.tasks[t].Switching? && a.tasks[t].user in a.users && NewId(a, send.id) {
      var Switching(challenge, user) := a.tasks[t];
      assert InOrder(cfg, a.calls, a.tasks[t]);
      LoginIsOrderly(cfg, a, t, user, a.users[user], Some(channel), Some(challenge), send, at);
    }
  }

  lemma ReturnSendOrderly(cfg: Config, a: System, t: TaskId, ok: bool, at: real)
    requires Orderly(cfg, a)
    ensures Orderly(cfg, ReturnSend(cfg, a, t, ok, at))
  {
    if Waits(a, t) && a.tasks[t].Sending? {
      var Sending(id, user, purpose, supersedes) := a.tasks[t];
      assert InOrder(cfg, a.calls, a.tasks[t]);
      assert forall u :: u in a.tasks && u != t && a.tasks[u].Sending? ==> a.tasks[u].id != id;
      assert ProperCall(cfg, a.calls, Discard(id, user));
      hide Orderly, ProperCall, Install, Awaited, Supersedes;
      InstallIsOrderly(cfg, a, t, id, purpose, supersedes, user, at);
      AskIsOrderly(cfg, a, End(Asked(a, Discard(id, user), at), t), t, Discard(id, user), at);
    }
  }

  lemma ClaimsOrderly(cfg: Config, a: System, action: Action, at: real)
    requires Orderly(cfg, a) && SaneCalls(a) && (action.ContactAsked? || action.RecoveryFound? || action.EnrolSaved?)
    ensures Orderly(cfg, Perform(cfg, a, action, at))
  {
    hide Orderly, SaneCalls, NewId, StartTotp, StartSend, DestinationFor, Serves;
    var t := action.task;
    EndIsOrderly(cfg, a, t);
    match action
    case ContactAsked(_, user, channel, destination, send) =>
      if NewId(a, send.id) && channel != Totp {
        StartIsOrderly(cfg, a, t, Claim(send.id, send.code, user, VerifyContact, channel, Some(destination), send.address), None, at);
      }
    case RecoveryFound(_, user, channel, send) =>
      if NewId(a, send.id) && user in a.users {
        StartIsOrderly(cfg, a, t, ClaimTotp(send.id, user, PasswordReset, None, true), None, at);
        if channel != Totp {
          StartIsOrderly(cfg, a, t, Claim(send.id, send.code, user, PasswordReset, channel, DestinationFor(a.users[user], channel), None), None, at);
        }
      }
    case EnrolSaved(_, id, ttl) =>
      if Waits(a, t) && a.tasks[t].Enrolling? && a.tasks[t].user in a.users && NewId(a, id) {
        var Enrolling(user, secret) := a.tasks[t];
        EnrolOrderly(cfg, a, t, id, ttl, at);
      }
  }

  lemma EnrolOrderly(cfg: Config, a: System, t: TaskId, id: ChallengeId, ttl: nat, at: real)
    requires Orderly(cfg, a) && SaneCalls(a) && Waits(a, t) && a.tasks[t].Enrolling? && a.tasks[t].user in a.users && NewId(a, id)
    ensures Orderly(cfg, SaveEnrol(cfg, a, t, id, ttl, at))
  {
    hide Orderly, SaneCalls, StartTotp;
    var Enrolling(user, secret) := a.tasks[t];
    var stored := a.(users := a.users[user := a.users[user].(secret := Some(secret))]);
    MoveIsOrderly(cfg, a, stored, t);
    SameSane(a, stored);
    StartIsOrderly(cfg, stored, t, ClaimTotp(id, user, VerifyContact, Some(ttl), false), None, at);
  }

  lemma JudgeOrderly(cfg: Config, a: System, t: TaskId, op: Operation, seen: Option<User>, at: real)
    requires op.Verify? && Orderly(cfg, a) && ProperCall(cfg, a.calls, op)
    ensures Orderly(cfg, JudgeCode(cfg, a, t, op, seen, at))
  {
    hide Orderly, Answered;
    AskIsOrderly(cfg, a, JudgeCode(cfg, a, t, op, seen, at), t, op, at);
  }

  lemma EnterCodeOrderly(cfg: Config, a: System, t: TaskId, flow: Purpose, challenge: ChallengeId, code: string, user: UserId, at: real)
    requires Orderly(cfg, a) && SaneCalls(a)
    ensures Orderly(cfg, EnterCode(cfg, a, t, flow, challenge, code, user, at))
  {
    hide Step, After, JudgeCode, Dead, NeverLive, InOrder, WasMinted;
    var look := RequireLive(challenge, flow);
    ReadIsLive(cfg, a.calls, challenge, flow, at);
    AskedIsOrderly(cfg, a, look, at);
    if Answered(cfg, a, look, at).Live? {
      var c := Answered(cfg, a, look, at).challenge;
      var owner := if flow == VerifyContact then user else c.user;
      if c.channel == Totp {
        AuthenticatorHasNoDigest(cfg, a.calls, challenge);
        HeldByOwner(cfg, a.calls, challenge, flow, code, owner, Expected(flow, user));
        hide Orderly;
        OldTask(cfg, a.calls, Call(look, at), LoadingOwner(flow, challenge, code, owner, Expected(flow, user)));
        BegunIsOrderly(cfg, Asked(a, look, at), t, LoadingOwner(flow, challenge, code, owner, Expected(flow, user)));
      } else {
        hide Orderly;
        JudgeOrderly(cfg, Asked(a, look, at), t, Verify(challenge, code, flow, Expected(flow, user), None), None, at);
      }
    }
  }

  lemma HeldByOwner(cfg: Config, calls: seq<Call>, challenge: ChallengeId, flow: Purpose, code: string, owner: UserId, expected: Option<UserId>)
    requires OwnAuthenticator(cfg, calls, challenge, flow, owner) && (flow == VerifyContact ==> expected == Some(owner))
    ensures InOrder(cfg, calls, LoadingOwner(flow, challenge, code, owner, expected))
  {
    hide OwnAuthenticator;
  }

  lemma LoadOwnerOrderly(cfg: Config, a: System, t: TaskId, verdict: Verdict, at: real)
    requires Orderly(cfg, a)
    ensures Orderly(cfg, LoadOwner(cfg, a, t, verdict, at))
  {
    hide JudgeCode, Dead, NeverLive;
    EndIsOrderly(cfg, a, t);
    if Waits(a, t) && a.tasks[t].LoadingOwner? && a.tasks[t].owner in a.users {
      var LoadingOwner(flow, challenge, code, owner, expected) := a.tasks[t];
      assert InOrder(cfg, a.calls, a.tasks[t]);
      JudgeOrderly(cfg, a, t, Verify(challenge, code, flow, expected, Some(verdict)), Some(a.users[owner]), at);
    }
  }

  lemma AsksOrderly(cfg: Config, a: System, action: Action, at: real)
    requires Orderly(cfg, a) && (action.DisableRefreshed? || action.PasswordRefreshed? || action.RecoveryAsked?)
    ensures Orderly(cfg, Perform(cfg, a, action, at))
  {
    hide Orderly, Answered, WithoutUser;
    var t, b := action.task, Perform(cfg, a, action, at);
    if action.RecoveryAsked? {
      AskIsOrderly(cfg, a, Begin(Asked(a, ReserveRequest(action.address), at), t, Recovering), t, ReserveRequest(action.address), at);
      AskIsOrderly(cfg, a, Asked(a, ReserveRequest(action.address), at), t, ReserveRequest(action.address), at);
    } else if Waits(a, t) && (a.tasks[t].Disabled? || a.tasks[t].PasswordSet?) {
      if b != a {
        AskIsOrderly(cfg, a, b, t, Invalidate(a.tasks[t].user), at);
      }
    }
  }

  lemma MovesOrderly(cfg: Config, a: System, action: Action, at: real)
    requires Orderly(cfg, a)
    requires action.FirstFactorLoaded? || action.ProvenLoaded? || action.SessionSaved? || action.ContactSaved? || action.Abandoned?
    ensures Orderly(cfg, Perform(cfg, a, action, at))
  {
    hide Orderly, WithoutExpired, Taken, ConfirmedRow;
    hide PassFirstFactor, AskSwitch, PassSwitch, EnterCode, LoadOwner, SaveEnrol, FindRecovery, AskContact, ReturnSend, AskRecovery;
    hide AskEnrol, AskDisable, SaveDisable, RefreshDisable, AskReset, LoadReset, SavePassword, RefreshPassword, ChangeRow;
    MoveIsOrderly(cfg, a, Perform(cfg, a, action, at), action.task);
  }

  lemma SettingsMovesOrderly(cfg: Config, a: System, action: Action, at: real)
    requires Orderly(cfg, a)
    requires action.EnrolAsked? || action.DisableAsked? || action.DisableSaved? || action.ResetAsked? || action.ResetLoaded?
    ensures Orderly(cfg, Perform(cfg, a, action, at))
  {
    hide Orderly, WithoutExpired, SavePassword, AskChange, SaveChange, AskPreference, SavePreference;
    hide PassFirstFactor, AskSwitch, PassSwitch, EnterCode, LoadOwner, SaveEnrol, FindRecovery, AskContact, ReturnSend, AskRecovery;
    hide LoadFirstFactor, UseProof, SaveSession, SaveContact, RefreshDisable, RefreshPassword, ChangeRow;
    MoveIsOrderly(cfg, a, Perform(cfg, a, action, at), action.task);
  }

  lemma PasswordMovesOrderly(cfg: Config, a: System, action: Action, at: real)
    requires Orderly(cfg, a)
    requires action.PasswordSaved? || action.ChangeAsked? || action.ChangeSaved? || action.PreferenceAsked? || action.PreferenceSaved?
    ensures Orderly(cfg, Perform(cfg, a, action, at))
  {
    hide Orderly;
    hide PassFirstFactor, AskSwitch, PassSwitch, EnterCode, LoadOwner, SaveEnrol, FindRecovery, AskContact, ReturnSend, AskRecovery;
    hide LoadFirstFactor, UseProof, SaveSession, SaveContact, RefreshDisable, RefreshPassword, ChangeRow, AskEnrol, AskDisable;
    hide SaveDisable, AskReset, LoadReset;
    MoveIsOrderly(cfg, a, Perform(cfg, a, action, at), action.task);
  }

  lemma RowsOrderly(cfg: Config, a: System, action: Action)
    requires Orderly(cfg, a)
    ensures Orderly(cfg, ChangeRow(a, action))
  {
    hide Orderly, Taken, DestinationFor;
    MoveIsOrderly(cfg, a, ChangeRow(a, action), 0);
  }

  lemma PerformIsOrderly(cfg: Config, a: System, action: Action, at: real)
    requires Orderly(cfg, a) && SaneCalls(a)
    ensures Orderly(cfg, Perform(cfg, a, action, at))
  {
    hide Orderly, SaneCalls, PassFirstFactor, AskSwitch, PassSwitch, SaveSession, EnterCode, LoadOwner, UseProof, SaveContact, SaveEnrol;
    hide FindRecovery, AskReset, LoadReset, SavePassword, RefreshPassword, ChangeRow;
    hide AskContact, ReturnSend, AskRecovery, LoadFirstFactor, AskEnrol, AskDisable, SaveDisable, RefreshDisable;
    hide AskChange, SaveChange, AskPreference, SavePreference;
    match action
    case FirstFactorPassed(t, send) => FirstFactorOrderly(cfg, a, t, send, at);
    case SwitchAsked(t, challenge) => AskSwitchOrderly(cfg, a, t, challenge, at);
    case SwitchLoaded(t, channel, send) => PassSwitchOrderly(cfg, a, t, channel, send, at);
    case SendReturned(t, ok) => ReturnSendOrderly(cfg, a, t, ok, at);
    case CodeEntered(t, flow, challenge, code, user) => EnterCodeOrderly(cfg, a, t, flow, challenge, code, user, at);
    case OwnerLoaded(t, verdict) => LoadOwnerOrderly(cfg, a, t, verdict, at);
    case ContactAsked(_, _, _, _, _) => ClaimsOrderly(cfg, a, action, at);
    case RecoveryFound(_, _, _, _) => ClaimsOrderly(cfg, a, action, at);
    case EnrolSaved(_, _, _) => ClaimsOrderly(cfg, a, action, at);
    case DisableRefreshed(_) => AsksOrderly(cfg, a, action, at);
    case PasswordRefreshed(_) => AsksOrderly(cfg, a, action, at);
    case RecoveryAsked(_, _) => AsksOrderly(cfg, a, action, at);
    case ChangeAsked(_, _, _, _) => PasswordMovesOrderly(cfg, a, action, at);
    case ChangeSaved(_) => PasswordMovesOrderly(cfg, a, action, at);
    case PreferenceAsked(_, _, _) => PasswordMovesOrderly(cfg, a, action, at);
    case PreferenceSaved(_) => PasswordMovesOrderly(cfg, a, action, at);
    case StatusChanged(_, _) => RowsOrderly(cfg, a, action);
    case Registered(_, _) => RowsOrderly(cfg, a, action);
    case EnrolAsked(_, _, _) => SettingsMovesOrderly(cfg, a, action, at);
    case DisableAsked(_, _) => SettingsMovesOrderly(cfg, a, action, at);
    case DisableSaved(_) => SettingsMovesOrderly(cfg, a, action, at);
    case ResetAsked(_, _) => SettingsMovesOrderly(cfg, a, action, at);
    case ResetLoaded(_) => SettingsMovesOrderly(cfg, a, action, at);
    case PasswordSaved(_, _) => PasswordMovesOrderly(cfg, a, action, at);
    case _ => MovesOrderly(cfg, a, action, at);
  }

  lemma {:induction false} EveryRunIsOrderly(cfg: Config, users: map<UserId, User>, actions: seq<Moment>)
    ensures Orderly(cfg, Run(cfg, users, actions))
  {
    hide Perform, SaneCalls, Sound, InOrder, Dead, NeverLive, ProperCall;
    if actions != [] {
      var n := |actions| - 1;
      var before, action, at := Run(cfg, users, actions[..n]), actions[n].action, actions[n].at;
      EveryRunIsOrderly(cfg, users, actions[..n]);
      EveryRunIsSound(cfg, users, actions[..n]);
      if at >= before.clock {
        LaterIsSane(before, at);
        PerformIsOrderly(cfg, before.(clock := at), action, at);
        MoveIsOrderly(cfg, Perform(cfg, before.(clock := at), action, at), Run(cfg, users, actions), 0);
      }
    }
  }
}
