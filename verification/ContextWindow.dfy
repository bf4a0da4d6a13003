/** Which history messages the model is shown, and how each is written down
    (`select_messages` and `render_message_body` in backend/app/ai/context.py). */
module ContextWindow {
  import opened Unicode
  import opened Wrappers
  import opened Json
  import opened JsonDump
  import opened Completion

  datatype Role = User | Assistant | Other(name: Text)

  datatype Message = Message(id: int, role: Role, content: Text, createdAt: Text, replyTo: Option<int>)

  datatype ChatMessage = ChatMessage(role: Role, content: Text)

  const CHARS_PER_TOKEN := 4

  /** Rows fetched for history before the window is cut. */
  const MAX_HISTORY_FETCH := 500

  function EstimateTokens(text: Text): (n: nat)
    ensures n >= 1 && |text| < 4 * (n + 1) && (n > 1 ==> 4 * n <= |text|)
  {
    if |text| / CHARS_PER_TOKEN > 1 then |text| / CHARS_PER_TOKEN else 1
  }

  // -- Writing a message down ------------------------------------------------------

  /** `id` */
  const ID: Text := [0x69, 0x64]
  /** `role` */
  const ROLE: Text := [0x72, 0x6F, 0x6C, 0x65]
  /** `created_at` */
  const CREATED_AT: Text := [0x63, 0x72, 0x65, 0x61, 0x74, 0x65, 0x64, 0x5F, 0x61, 0x74]

  function RoleName(role: Role): Text {
    match role
    case User => [0x75, 0x73, 0x65, 0x72]
    case Assistant => [0x61, 0x73, 0x73, 0x69, 0x73, 0x74, 0x61, 0x6E, 0x74]
    case Other(name) => name
  }

  /** What a stored message can hold: encodable text, printable ids. */
  predicate Stored(m: Message) {
    && Scalar(RoleName(m.role)) && Scalar(m.content) && Scalar(m.createdAt) && Plain(Int(m.id))
    && (m.replyTo.Some? ==> Plain(Int(m.replyTo.value)))
  }

  function Fields(m: Message): seq<Member> {
    [Member(ID, Int(m.id)), Member(ROLE, Str(RoleName(m.role))), Member(CONTENT, Str(m.content)),
     Member(CREATED_AT, Str(m.createdAt)),
     Member(REPLY_TO_ID, match m.replyTo case None => Null case Some(n) => Int(n))]
  }

  function RenderMessageBody(m: Message): Text
    requires Stored(m)
  {
    FieldsArePlain(m);
    Dump(Obj(Fields(m)), PYTHON)
  }

  lemma FieldsArePlain(m: Message)
    requires Stored(m)
    ensures Plain(Obj(Fields(m)))
  {
    assert Scalar(ID) && Scalar(ROLE) && Scalar(CONTENT) && Scalar(CREATED_AT) && Scalar(REPLY_TO_ID);
  }

  /** Message text can never forge envelope fields: whatever the text contains, the body reads
      back as an object of exactly five members, in which each field is what the message
      says. */
  lemma BodyCannotBeForged(m: Message)
    requires Stored(m)
    ensures
      var body := Loads(RenderMessageBody(m));
      && body.Some? && body.value.Obj? && |body.value.members| == 5
      && Get(body.value.members, ID) == Some(Int(m.id))
      && Get(body.value.members, ROLE) == Some(Str(RoleName(m.role)))
      && Get(body.value.members, CONTENT) == Some(Str(m.content))
      && Get(body.value.members, CREATED_AT) == Some(Str(m.createdAt))
      && Get(body.value.members, REPLY_TO_ID) == Some(match m.replyTo case None => Null case Some(n) => Int(n))
  {
    FieldsArePlain(m);
    LoadsDump(Obj(Fields(m)), PYTHON);
    FieldsDiffer();
    hide Dump, Loads, Plain, Get;
    var all := Fields(m);
    NoField();
    GetNext([], all[0]);
    GetNext([all[0]], all[1]);
    GetNext([all[0], all[1]], all[2]);
    GetNext([all[0], all[1], all[2]], all[3]);
    GetNext([all[0], all[1], all[2], all[3]], all[4]);
    assert [] + [all[0]] == [all[0]] && [all[0]] + [all[1]] == [all[0], all[1]];
    assert [all[0], all[1]] + [all[2]] == [all[0], all[1], all[2]] && [all[0], all[1], all[2]] + [all[3]] == [all[0], all[1], all[2], all[3]];
    assert [all[0], all[1], all[2], all[3]] + [all[4]] == all;
  }

  lemma NoField()
    ensures forall key :: Get([], key) == None
  {
  }

  lemma GetNext(members: seq<Member>, m: Member)
    ensures forall key :: Get(members + [m], key) == if m.key == key then Some(m.value) else Get(members, key)
  {
    assert (members + [m])[..|members|] == members;
  }

  lemma FieldsDiffer()
    ensures ID != ROLE && ID != CONTENT && ID != CREATED_AT && ID != REPLY_TO_ID && ROLE != CONTENT && ROLE != CREATED_AT
    ensures ROLE != REPLY_TO_ID && CONTENT != CREATED_AT && CONTENT != REPLY_TO_ID && CREATED_AT != REPLY_TO_ID
  {
    assert ROLE[0] != CONTENT[0] && CONTENT[1] != CREATED_AT[1] && CREATED_AT[0] != REPLY_TO_ID[0] && CONTENT[0] != REPLY_TO_ID[0];
  }

  // -- The window ------------------------------------------------------------------

  predicate Eligible(m: Message) { !m.role.Other? && m.content != [] }

  function EligibleOf(messages: seq<Message>): seq<Message> {
    if messages == [] then []
    else (if Eligible(messages[0]) then [messages[0]] else []) + EligibleOf(messages[1..])
  }

  /** Exactly what the user and the assistant said is eligible, unless it is empty. */
  lemma {:induction false} EligibleExactly(messages: seq<Message>, m: Message)
    ensures m in EligibleOf(messages) <==> m in messages && (m.role == User || m.role == Assistant) && |m.content| > 0
  {
    if messages != [] {
      EligibleExactly(messages[1..], m);
      assert messages == [messages[0]] + messages[1..];
    }
  }

  function Cost(messages: seq<Message>): nat {
    if messages == [] then 0 else EstimateTokens(messages[0].content) + Cost(messages[1..])
  }

  function Newest(messages: seq<Message>, n: nat): seq<Message>
    requires n <= |messages|
  {
    messages[|messages| - n..]
  }

  /** The newest `n` messages may be shown together. */
  predicate Admissible(eligible: seq<Message>, n: nat, maxMessages: nat, budget: int) {
    n <= |eligible| && n <= maxMessages && (n <= 1 || Cost(Newest(eligible, n)) <= budget)
  }

  ghost predicate Longest(eligible: seq<Message>, n: nat, maxMessages: nat, budget: int) {
    Admissible(eligible, n, maxMessages, budget)
    && forall m: nat :: n < m <= |eligible| ==> !Admissible(eligible, m, maxMessages, budget)
  }

  predicate AllStored(messages: seq<Message>) {
    forall i :: 0 <= i < |messages| ==> Stored(messages[i])
  }

  function Render(messages: seq<Message>): (r: seq<ChatMessage>)
    requires AllStored(messages)
    ensures |r| == |messages|
  {
    seq(|messages|, i requires 0 <= i < |messages| => ChatMessage(messages[i].role, RenderMessageBody(messages[i])))
  }

  /** Each message is shown in its own place, in its own role, and reads back as itself. */
  lemma ShownAsWritten(messages: seq<Message>, i: nat)
    requires AllStored(messages) && i < |messages|
    ensures
      var shown, body := Render(messages)[i], Loads(Render(messages)[i].content);
      && shown.role == messages[i].role && body.Some? && body.value.Obj?
      && Get(body.value.members, ID) == Some(Int(messages[i].id)) && Get(body.value.members, CONTENT) == Some(Str(messages[i].content))
  {
    BodyCannotBeForged(messages[i]);
    hide Loads, Get, RenderMessageBody;
  }

  function Reverse<T>(s: seq<T>): (r: seq<T>)
    ensures |r| == |s| && forall i :: 0 <= i < |s| ==> r[i] == s[|s| - 1 - i]
  {
    if s == [] then [] else Reverse(s[1..]) + [s[0]]
  }

  method SelectMessages(messages: seq<Message>, maxMessages: nat, charBudget: int) returns (r: seq<ChatMessage>)
    requires AllStored(messages)
    ensures AllStored(EligibleOf(messages)) && |r| <= |EligibleOf(messages)|
    ensures r == Render(Newest(EligibleOf(messages), |r|))
    ensures Longest(EligibleOf(messages), |r|, maxMessages, charBudget)
  {
    EligibleAreStored(messages);
    var chosen := ChooseMessages(messages, maxMessages, charBudget);
    r := Render(chosen);
  }

  /** Walking backwards and stopping at the first message that does not fit selects the
      longest admissible run of newest messages, in chronological order. */
  method ChooseMessages(messages: seq<Message>, maxMessages: nat, charBudget: int) returns (r: seq<Message>)
    ensures |r| <= |EligibleOf(messages)| && r == Newest(EligibleOf(messages), |r|)
    ensures Longest(EligibleOf(messages), |r|, maxMessages, charBudget)
  {
    ghost var eligible := EligibleOf(messages);
    var selected: seq<Message> := [];
    var usedChars := 0;
    var i := |messages|;
    while i > 0
      invariant 0 <= i <= |messages|
      invariant |selected| <= |eligible| && EligibleOf(messages[i..]) == Newest(eligible, |selected|)
      invariant selected == Reverse(Newest(eligible, |selected|))
      invariant usedChars == Cost(Newest(eligible, |selected|))
      invariant Admissible(eligible, |selected|, maxMessages, charBudget)
    {
      i := i - 1;
      var message := messages[i];
      if !Eligible(message) {
        assert messages[i..][1..] == messages[i + 1..];
        continue;
      }
      OneMore(messages, i, |selected|);
      if |selected| >= maxMessages {
        break;
      }
      var cost := EstimateTokens(message.content);
      if selected != [] && usedChars + cost > charBudget {
        break;
      }
      selected := selected + [message];
      usedChars := usedChars + cost;
    }
    if |selected| < |eligible| {
      NothingLonger(eligible, |selected|, maxMessages, charBudget);
    }
    r := Reverse(selected);
    ReverseTwice(Newest(eligible, |selected|));
  }

  function EligibleHead(m: Message): seq<Message> { if Eligible(m) then [m] else [] }

  lemma EligibleNext(messages: seq<Message>)
    requires messages != []
    ensures EligibleOf(messages) == EligibleHead(messages[0]) + EligibleOf(messages[1..])
  {
  }

  lemma {:induction false} EligibleAppend(a: seq<Message>, b: seq<Message>)
    ensures EligibleOf(a + b) == EligibleOf(a) + EligibleOf(b)
  {
    if a == [] {
      assert a + b == b;
      assert EligibleOf(a) + EligibleOf(b) == EligibleOf(b);
    } else {
      EligibleAppend(a[1..], b);
      EligibleNext(a + b);
      EligibleNext(a);
      hide EligibleOf;
      assert (a + b)[1..] == a[1..] + b;
      Associate(EligibleHead(a[0]), EligibleOf(a[1..]), EligibleOf(b));
    }
  }

  lemma {:induction false} EligibleAreStored(messages: seq<Message>)
    requires AllStored(messages)
    ensures AllStored(EligibleOf(messages))
  {
    if messages != [] { EligibleAreStored(messages[1..]); }
  }

  /** The next eligible message, going backwards, is the next one of the eligible run. */
  lemma OneMore(messages: seq<Message>, i: nat, n: nat)
    requires i < |messages| && Eligible(messages[i]) && n <= |EligibleOf(messages)|
    requires EligibleOf(messages[i + 1..]) == Newest(EligibleOf(messages), n)
    ensures n < |EligibleOf(messages)| && EligibleOf(messages[i..]) == Newest(EligibleOf(messages), n + 1)
    ensures Cost(Newest(EligibleOf(messages), n + 1)) == EstimateTokens(messages[i].content) + Cost(Newest(EligibleOf(messages), n))
    ensures Reverse(Newest(EligibleOf(messages), n + 1)) == Reverse(Newest(EligibleOf(messages), n)) + [messages[i]]
  {
    var eligible := EligibleOf(messages);
    EligibleAppend(messages[..i], messages[i..]);
    assert messages[..i] + messages[i..] == messages;
    assert messages[i..][1..] == messages[i + 1..];
    assert Newest(eligible, n + 1) == [messages[i]] + Newest(eligible, n);
    assert Newest(eligible, n + 1)[1..] == Newest(eligible, n);
  }

  lemma ReverseTwice<T>(s: seq<T>)
    ensures Reverse(Reverse(s)) == s
  {
  }

  lemma {:induction false} CostGrows(eligible: seq<Message>, n: nat, m: nat)
    requires n <= m <= |eligible|
    ensures Cost(Newest(eligible, n)) <= Cost(Newest(eligible, m))
    decreases m
  {
    if n < m {
      CostGrows(eligible, n, m - 1);
      assert Newest(eligible, m)[1..] == Newest(eligible, m - 1);
    }
  }

  lemma NothingLonger(eligible: seq<Message>, n: nat, maxMessages: nat, budget: int)
    requires n < |eligible| && !Admissible(eligible, n + 1, maxMessages, budget)
    ensures forall m: nat :: n < m <= |eligible| ==> !Admissible(eligible, m, maxMessages, budget)
  {
    forall m: nat | n < m <= |eligible| ensures !Admissible(eligible, m, maxMessages, budget) {
      CostGrows(eligible, n + 1, m);
    }
  }

  /** The rows that are fetched: the newest 500, eligible or not. */
  function Fetched(full: seq<Message>): seq<Message> {
    Newest(full, if |full| < MAX_HISTORY_FETCH then |full| else MAX_HISTORY_FETCH)
  }

  lemma AdmissibleBelow(eligible: seq<Message>, n: nat, m: nat, maxMessages: nat, budget: int)
    requires Admissible(eligible, m, maxMessages, budget) && n <= m
    ensures Admissible(eligible, n, maxMessages, budget)
  {
    CostGrows(eligible, n, m);
  }

  /** What the fetch limit costs, for any history and any window: of the messages that the
      full history would show the model, the newest are shown that are eligible among the
      fetched rows. So nothing is lost exactly when the full selection is no longer than the
      eligible part of the page, as when the page holds a window's worth of eligible rows. */
  lemma FetchLimitIsHarmless(full: seq<Message>, n: nat, m: nat, maxMessages: nat, budget: int)
    requires Longest(EligibleOf(full), n, maxMessages, budget)
    requires Longest(EligibleOf(Fetched(full)), m, maxMessages, budget)
    ensures
      var all, page := EligibleOf(full), EligibleOf(Fetched(full));
      && m == (if n <= |page| then n else |page|) && Newest(page, m) == Newest(all, m)
      && (Newest(page, m) == Newest(all, n) <==> n <= |page|)
      && (maxMessages <= |page| ==> Newest(page, m) == Newest(all, n))
  {
    var all, page := EligibleOf(full), EligibleOf(Fetched(full));
    var older := full[..|full| - |Fetched(full)|];
    assert full == older + Fetched(full);
    EligibleAppend(older, Fetched(full));
    hide EligibleOf, Cost, Newest, Fetched;
    PageIsNewest(EligibleOf(older), page, maxMessages, budget);
    if n <= |page| {
      LongestIsUnique(page, n, m, maxMessages, budget);
    } else {
      AdmissibleBelow(all, |page|, n, maxMessages, budget);
      assert m == |page|;
      assert |Newest(page, m)| == m && |Newest(all, n)| == n by { NewestHas(page, m); NewestHas(all, n); }
    }
  }

  lemma NewestHas(messages: seq<Message>, n: nat)
    requires n <= |messages|
    ensures |Newest(messages, n)| == n
  {
  }

  /** What is newest on the page is newest of all. */
  lemma PageIsNewest(older: seq<Message>, page: seq<Message>, maxMessages: nat, budget: int)
    ensures forall k: nat :: k <= |page| ==> Newest(page, k) == Newest(older + page, k)
    ensures forall k: nat :: k <= |page| ==>
      (Admissible(page, k, maxMessages, budget) <==> Admissible(older + page, k, maxMessages, budget))
  {
    hide Cost;
    forall k: nat | k <= |page| ensures Newest(page, k) == Newest(older + page, k) {
      assert (older + page)[|older| + (|page| - k)..] == page[|page| - k..];
    }
  }

  /** At most one length is the longest, so the selection is determined by the property. */
  lemma LongestIsUnique(eligible: seq<Message>, n: nat, m: nat, maxMessages: nat, budget: int)
    requires Longest(eligible, n, maxMessages, budget) && Longest(eligible, m, maxMessages, budget)
    ensures n == m
  {
  }

  /** The longest run is the greedy one: the newest message is shown whatever it costs, more
      than one only within the budget, and one more would be over the budget or the limit. */
  lemma LongestIsGreedy(eligible: seq<Message>, n: nat, maxMessages: nat, budget: int)
    ensures Longest(eligible, n, maxMessages, budget) <==>
      && n <= |eligible| && n <= maxMessages
      && (eligible != [] && maxMessages > 0 ==> n > 0)
      && (n > 1 ==> Cost(Newest(eligible, n)) <= budget)
      && (0 < n < |eligible| && n < maxMessages ==> Cost(Newest(eligible, n + 1)) > budget)
  {
    hide Cost, Newest;
    if n < |eligible| && !Admissible(eligible, n + 1, maxMessages, budget) {
      NothingLonger(eligible, n, maxMessages, budget);
    }
  }
}
