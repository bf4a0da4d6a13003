/** Every way a JSON document may be written (RFC 8259, and Python's extras): white space
    anywhere between the tokens, any spelling of every string, any number. The parser reads
    each of them as the value it stands for, and reads nothing else. */
module JsonSyntax {
  import opened Unicode
  import opened Wrappers
  import opened Json
  import opened JsonStrings
  import JsonDump

  // -- The grammar -----------------------------------------------------------------

  /** Section 2 of RFC 8259: space, tab, line feed, carriage return. */
  predicate White(c: CodePoint) { c == 0x20 || c == 0x09 || c == 0x0A || c == 0x0D }

  predicate Space(s: Text) { forall i :: 0 <= i < |s| ==> White(s[i]) }

  datatype Exponent = NoExponent | Exponent(letter: CodePoint, sign: Text, digits: Text)

  datatype Syntax =
    | Word(text: Text, value: Json)
    | Number(negative: bool, whole: Text, fraction: Text, exponent: Exponent)
    | Quoted(units: seq<Spelling>)
    | EmptyArray(gap: Text)
    | EmptyObject(gap: Text)
    | Array(items: seq<Item>)
    | Object(entries: seq<Entry>)

  /** An item and the white space around it. */
  datatype Item = Item(before: Text, value: Syntax, after: Text)

  datatype Entry = Entry(before: Text, key: seq<Spelling>, beforeColon: Text, afterColon: Text, value: Syntax, after: Text)

  const WORDS: seq<(Text, Json)> := [
    (NULL, Null), (TRUE, Bool(true)), (FALSE, Bool(false)), (NAN, Float(NAN)), (INFINITY, Float(INFINITY)),
    (MINUS_INFINITY, Float(MINUS_INFINITY))]

  predicate AllDigits(s: Text) { forall i :: 0 <= i < |s| ==> 0x30 <= s[i] <= 0x39 }

  predicate ProperExponent(e: Exponent) {
    e.Exponent? ==> e.letter in {0x65, 0x45} && e.sign in {[], [0x2B], [0x2D]} && e.digits != [] && AllDigits(e.digits)
  }

  /** Section 6: no leading zero; an integer has no more digits than Python converts. */
  predicate ProperNumber(n: Syntax)
    requires n.Number?
  {
    && n.whole != [] && AllDigits(n.whole) && (n.whole[0] == 0x30 ==> |n.whole| == 1)
    && AllDigits(n.fraction) && ProperExponent(n.exponent)
    && (n.fraction == [] && n.exponent.NoExponent? ==> |n.whole| <= MAX_INT_DIGITS)
  }

  predicate Proper(t: Syntax) {
    match t
    case Word(text, value) => (text, value) in WORDS
    case Number(_, _, _, _) => ProperNumber(t)
    case Quoted(units) => ProperAll(units)
    case EmptyArray(gap) => Space(gap)
    case EmptyObject(gap) => Space(gap)
    case Array(items) =>
      items != [] && forall i :: 0 <= i < |items| ==> ProperItem(items[i]) && Proper(items[i].value)
    case Object(entries) => entries != [] && forall i :: 0 <= i < |entries| ==> ProperEntry(entries[i]) && Proper(entries[i].value)
  }

  predicate ProperItem(i: Item) { Space(i.before) && Space(i.after) }

  predicate ProperEntry(e: Entry) {
    Space(e.before) && ProperAll(e.key) && Space(e.beforeColon) && Space(e.afterColon) && Space(e.after)
  }

  function ExponentText(e: Exponent): Text {
    match e case NoExponent => [] case Exponent(letter, sign, digits) => [letter] + sign + digits
  }

  function FractionText(fraction: Text): Text { if fraction == [] then [] else [0x2E] + fraction }

  function NumberText(t: Syntax): Text
    requires t.Number?
  {
    (if t.negative then [0x2D] else []) + (t.whole + (FractionText(t.fraction) + ExponentText(t.exponent)))
  }

  function Source(t: Syntax): Text
    requires Proper(t)
    decreases t, 0
  {
    match t
    case Word(text, _) => text
    case Number(_, _, _, _) => NumberText(t)
    case Quoted(units) => [QUOTE] + (WrittenAll(units) + [QUOTE])
    case EmptyArray(gap) => [LEFT_BRACKET] + (gap + [RIGHT_BRACKET])
    case EmptyObject(gap) => [LEFT_BRACE] + (gap + [RIGHT_BRACE])
    case Array(items) => [LEFT_BRACKET] + ItemsText(items)
    case Object(entries) => [LEFT_BRACE] + EntriesText(entries)
  }

  function ItemsText(items: seq<Item>): Text
    requires items != [] && forall i :: 0 <= i < |items| ==> ProperItem(items[i]) && Proper(items[i].value)
    decreases items, 2
  {
    var tail := if |items| == 1 then [RIGHT_BRACKET] else [COMMA] + ItemsText(items[1..]);
    items[0].before + (Source(items[0].value) + (items[0].after + tail))
  }

  function EntriesText(entries: seq<Entry>): Text
    requires entries != [] && forall i :: 0 <= i < |entries| ==> ProperEntry(entries[i]) && Proper(entries[i].value)
    decreases entries, 2
  {
    var tail := if |entries| == 1 then [RIGHT_BRACE] else [COMMA] + EntriesText(entries[1..]);
    entries[0].before + EntryText(entries[0], tail)
  }

  /** An entry from its key on, and what follows it. */
  function EntryText(e: Entry, tail: Text): Text
    requires ProperEntry(e) && Proper(e.value)
    decreases e, 1
  {
    [QUOTE] + (WrittenAll(e.key) + ([QUOTE] + (e.beforeColon + ([COLON] + (e.afterColon + (Source(e.value) + (e.after + tail)))))))
  }

  function Value(t: Syntax): Json
    requires Proper(t)
    decreases t, 0
  {
    match t
    case Word(_, value) => value
    case Number(negative, whole, fraction, exponent) =>
      if fraction == [] && exponent.NoExponent? then Int(if negative then 0 - DecimalValue(whole) else DecimalValue(whole))
      else Float(NumberText(t))
    case Quoted(units) => Str(TextOf(units))
    case EmptyArray(_) => Arr([])
    case EmptyObject(_) => Obj([])
    case Array(items) => Arr(ItemValues(items))
    case Object(entries) => Obj(EntryValues(entries))
  }

  function ItemValues(items: seq<Item>): (values: seq<Json>)
    requires forall i :: 0 <= i < |items| ==> Proper(items[i].value)
    ensures |values| == |items|
    decreases items, 1
  {
    if items == [] then [] else [Value(items[0].value)] + ItemValues(items[1..])
  }

  function EntryValues(entries: seq<Entry>): (members: seq<Member>)
    requires forall i :: 0 <= i < |entries| ==> ProperEntry(entries[i]) && Proper(entries[i].value)
    ensures |members| == |entries|
    decreases entries, 1
  {
    if entries == [] then []
    else
      assert ProperEntry(entries[0]);
      [Member(TextOf(entries[0].key), Value(entries[0].value))] + EntryValues(entries[1..])
  }

  // -- White space -----------------------------------------------------------------

  lemma {:induction false} SpaceIsSkipped(gap: Text, s: Text)
    requires Space(gap) && (s == [] || !White(s[0]))
    ensures SkipSpace(gap + s) == s
  {
    if gap == [] {
      assert gap + s == s;
    } else {
      assert (gap + s)[1..] == gap[1..] + s;
      SpaceIsSkipped(gap[1..], s);
    }
  }

  lemma {:induction false} SkippedIsSpace(s: Text) returns (gap: Text)
    ensures Space(gap) && s == gap + SkipSpace(s)
  {
    if s == [] || !IsJsonSpace(s[0]) {
      gap := [];
    } else {
      var rest := SkippedIsSpace(s[1..]);
      gap := [s[0]] + rest;
      assert s == [s[0]] + s[1..];
    }
  }

  // -- Numbers ---------------------------------------------------------------------

  /** What may follow a value: nothing, white space, or punctuation. */
  predicate Delimits(more: Text) {
    more == [] || White(more[0]) || more[0] == COMMA || more[0] == RIGHT_BRACE || more[0] == RIGHT_BRACKET
  }

  lemma {:induction false} DigitsAreCounted(digits: Text, more: Text)
    requires AllDigits(digits) && (more == [] || !IsDigit(more[0]))
    ensures DigitCount(digits + more) == |digits|
  {
    if digits == [] {
      assert digits + more == more;
    } else {
      assert (digits + more)[1..] == digits[1..] + more;
      DigitsAreCounted(digits[1..], more);
    }
  }

  lemma FractionIsCounted(fraction: Text, more: Text)
    requires AllDigits(fraction) && (more == [] || (!IsDigit(more[0]) && more[0] != 0x2E))
    ensures FractionLength(FractionText(fraction) + more) == |FractionText(fraction)|
    ensures FractionText(fraction) + more == [] || !IsDigit((FractionText(fraction) + more)[0])
  {
    if fraction == [] {
      assert FractionText(fraction) + more == more;
    } else {
      var s := FractionText(fraction) + more;
      assert s[1..] == fraction + more;
      DigitsAreCounted(fraction, more);
    }
  }

  lemma ExponentIsCounted(e: Exponent, more: Text)
    requires ProperExponent(e) && Delimits(more)
    ensures ExponentLength(ExponentText(e) + more) == |ExponentText(e)|
    ensures var s := ExponentText(e) + more; s == [] || (!IsDigit(s[0]) && s[0] != 0x2E)
  {
    match e
    case NoExponent => assert ExponentText(e) + more == more;
    case Exponent(letter, sign, digits) => SignedIsCounted(letter, sign, digits, more);
  }

  lemma SignedIsCounted(letter: CodePoint, sign: Text, digits: Text, more: Text)
    requires ProperExponent(Exponent(letter, sign, digits)) && Delimits(more)
    ensures var s := [letter] + sign + digits + more;
      ExponentLength(s) == 1 + |sign| + |digits| && !IsDigit(s[0]) && s[0] != 0x2E
  {
    var s := [letter] + sign + digits + more;
    DigitsAreCounted(digits, more);
    SignedCuts(letter, sign, digits, more);
    hide DigitCount;
  }

  lemma SignedCuts(letter: CodePoint, sign: Text, digits: Text, more: Text)
    requires sign in {[], [0x2B], [0x2D]} && digits != []
    ensures var s := [letter] + sign + digits + more;
      && s[0] == letter && s[1 + |sign|..] == digits + more && |sign| <= 1 && |s| >= 2
      && if sign == [] then s[1] == digits[0] else s[1] == sign[0]
  {
    var s := [letter] + sign + digits + more;
    assert |sign| <= 1;
    assert s == [letter] + sign + (digits + more);
  }

  /** A number of which the three lengths are known. */
  lemma UnsignedByParts(d: Text, negative: bool, w: nat, f: nat, e: nat)
    requires d != [] && IsDigit(d[0]) && w == WholeLength(d) && f == FractionLength(d[w..]) && w + f <= |d|
    requires e == ExponentLength(d[w + f..]) && w + f + e <= |d| && (f + e == 0 ==> w <= MAX_INT_DIGITS)
    ensures AllDigits(d[..w])
    ensures ParseUnsigned(d, negative) ==
      if f + e > 0 then Ok(Float((if negative then [0x2D] else []) + d[..w + f + e]), d[w + f + e..])
      else Ok(Int(if negative then 0 - DecimalValue(d[..w]) else DecimalValue(d[..w])), d[w..])
  {
    hide *;
    WholeIsDigits(d, w);
    SuffixOfSuffix(d, w, f);
    SuffixOfSuffix(d, w, f + e);
    UnsignedUnfolds(d, negative, w, f, f + e);
  }

  lemma UnsignedUnfolds(d: Text, negative: bool, w: nat, f: nat, extra: nat)
    requires d != [] && IsDigit(d[0]) && w == WholeLength(d) && f == FractionLength(d[w..])
    requires extra == f + ExponentLength(d[w..][f..]) && w + extra <= |d| && (extra == 0 ==> w <= MAX_INT_DIGITS)
    ensures ParseUnsigned(d, negative) ==
      if extra > 0 then Ok(Float((if negative then [0x2D] else []) + d[..w + extra]), d[w..][extra..])
      else Ok(Int(if negative then 0 - DecimalValue(d[..w]) else DecimalValue(d[..w])), d[w..])
  {
    hide WholeLength, FractionLength, ExponentLength, DecimalValue;
  }

  lemma WholeIsDigits(d: Text, w: nat)
    requires d != [] && IsDigit(d[0]) && w == WholeLength(d)
    ensures w <= |d| && AllDigits(d[..w])
  {
    hide WholeLength;
  }

  lemma NumberCuts(w: Text, f: Text, e: Text, more: Text)
    ensures var d := w + (f + e) + more;
      && d[..|w|] == w && d[|w|..] == f + (e + more) && d[|w| + |f|..] == e + more && d[|w| + |f| + |e|..] == more
      && d[..|w| + |f| + |e|] == w + (f + e) && d[|w|..][..|f|] == f && d[|w| + |f|..][..|e|] == e && w <= d && d == w + (f + (e + more))
  {
  }

  lemma UnsignedIsRead(t: Syntax, more: Text)
    requires t.Number? && ProperNumber(t) && Delimits(more)
    ensures
      var d := t.whole + (FractionText(t.fraction) + ExponentText(t.exponent)) + more;
      d != [] && IsDigit(d[0]) && ParseUnsigned(d, t.negative) == Ok(Value(t), more)
  {
    hide *;
    var f, e := FractionText(t.fraction), ExponentText(t.exponent);
    ProperParts(t);
    LengthsAreCounted(t, f, e, more);
    EmptyParts(t.fraction, t.exponent);
    NumberFromLengths(t, t.whole + (f + e) + more, f, e, more);
  }

  lemma LengthsAreCounted(t: Syntax, f: Text, e: Text, more: Text)
    requires t.Number? && ProperNumber(t) && Delimits(more) && f == FractionText(t.fraction) && e == ExponentText(t.exponent)
    ensures var d := t.whole + (f + e) + more; d != [] && IsDigit(d[0]) && WholeLength(d) == |t.whole|
    ensures FractionLength(f + (e + more)) == |f| && ExponentLength(e + more) == |e|
  {
    hide *;
    ProperParts(t);
    ExponentIsCounted(t.exponent, more);
    FractionIsCounted(t.fraction, e + more);
    DigitsAreCounted(t.whole, f + (e + more));
    Regroups(t.whole, f, e, more);
    WholeIsCounted(t.whole, t.whole + (f + e) + more);
  }

  lemma Regroups(w: Text, f: Text, e: Text, more: Text)
    ensures w + (f + e) + more == w + (f + (e + more)) && w <= w + (f + e) + more
  {
  }

  lemma NumberFromLengths(t: Syntax, d: Text, f: Text, e: Text, more: Text)
    requires t.Number? && ProperNumber(t) && f == FractionText(t.fraction) && e == ExponentText(t.exponent)
    requires d == t.whole + (f + e) + more && d != [] && IsDigit(d[0]) && WholeLength(d) == |t.whole|
    requires FractionLength(f + (e + more)) == |f| && ExponentLength(e + more) == |e|
    requires (f == [] <==> t.fraction == []) && (e == [] <==> t.exponent.NoExponent?)
    ensures ParseUnsigned(d, t.negative) == Ok(Value(t), more)
  {
    hide *;
    ProperParts(t);
    NumberCuts(t.whole, f, e, more);
    PartsAreNumber(d, t, |t.whole|, |f|, |e|);
    UnsignedByParts(d, t.negative, |t.whole|, |f|, |e|);
  }

  lemma ProperParts(t: Syntax)
    requires t.Number? && ProperNumber(t)
    ensures t.whole != [] && AllDigits(t.whole) && (t.whole[0] == 0x30 ==> |t.whole| == 1) && AllDigits(t.fraction)
    ensures ProperExponent(t.exponent) && (t.fraction == [] && t.exponent.NoExponent? ==> |t.whole| <= MAX_INT_DIGITS)
  {
    hide AllDigits, ProperExponent;
  }

  lemma WholeIsCounted(whole: Text, d: Text)
    requires whole != [] && AllDigits(whole) && (whole[0] == 0x30 ==> |whole| == 1) && whole <= d && DigitCount(d) == |whole|
    ensures IsDigit(d[0]) && WholeLength(d) == |whole|
  {
  }

  lemma EmptyParts(fraction: Text, e: Exponent)
    ensures |FractionText(fraction)| == 0 <==> fraction == []
    ensures |ExponentText(e)| == 0 <==> e.NoExponent?
  {
  }

  // -- Every document is read ------------------------------------------------------

  /** A value opens with something that is neither white space nor a closing bracket. */
  lemma SourceOpens(t: Syntax)
    requires Proper(t)
    ensures var s := Source(t); s != [] && !White(s[0]) && s[0] != RIGHT_BRACE && s[0] != RIGHT_BRACKET
  {
    match t
    case Word(text, _) =>
    case Number(negative, whole, _, _) => assert NumberText(t)[0] == if negative then 0x2D else whole[0];
    case _ =>
  }

  lemma DigitsAreNumbers(s: Text)
    requires s != [] && (IsDigit(s[0]) || (s[0] == 0x2D && |s| > 1 && IsDigit(s[1])))
    ensures ParseValue(s) == ParseNumber(s)
  {
    hide ParseNumber;
    JsonDump.NotALiteral(s);
  }

  lemma SignedIsRead(d: Text, negative: bool, value: Json, more: Text)
    requires d != [] && IsDigit(d[0]) && ParseUnsigned(d, negative) == Ok(value, more)
    ensures ParseValue((if negative then [0x2D] else []) + d) == Ok(value, more)
  {
    hide ParseUnsigned, ParseValue;
    var s := (if negative then [0x2D] else []) + d;
    assert negative ==> s[1..] == d && s[1] == d[0];
    assert !negative ==> s == d;
    DigitsAreNumbers(s);
  }

  lemma NumberIsRead(t: Syntax, more: Text)
    requires t.Number? && ProperNumber(t) && Delimits(more)
    ensures ParseValue(NumberText(t) + more) == Ok(Value(t), more)
  {
    hide ParseUnsigned, DecimalValue, FractionText, ExponentText, AllDigits, ProperExponent, ParseValue, Delimits, Value;
    var digits := t.whole + (FractionText(t.fraction) + ExponentText(t.exponent));
    UnsignedIsRead(t, more);
    SignedIsRead(digits + more, t.negative, Value(t), more);
    Joins(if t.negative then [0x2D] else [], digits, more);
  }

  lemma WordIsRead(text: Text, value: Json, more: Text)
    requires (text, value) in WORDS && Delimits(more)
    ensures text != [] && ParseValue(text + more) == Ok(value, more)
  {
    var s := text + more;
    assert s[|text|..] == more && s[0] == text[0] && s[1] == text[1] && text <= s;
    hide ParseNumber;
    WordsDiffer(text, s);
  }

  lemma WordsDiffer(text: Text, s: Text)
    requires text in {NULL, TRUE, FALSE, NAN, INFINITY, MINUS_INFINITY} && text <= s
    ensures NULL <= s ==> text == NULL
    ensures TRUE <= s ==> text == TRUE
    ensures FALSE <= s ==> text == FALSE
    ensures NAN <= s ==> text == NAN
    ensures INFINITY <= s ==> text == INFINITY
    ensures MINUS_INFINITY <= s ==> text == MINUS_INFINITY
  {
    assert s[0] == text[0] && s[1] == text[1];
  }

  lemma StringIsRead(units: seq<Spelling>, more: Text)
    requires ProperAll(units)
    ensures ParseValue([QUOTE] + (WrittenAll(units) + [QUOTE]) + more) == Ok(Str(TextOf(units)), more)
  {
    hide WrittenAll, TextOf, ParseString;
    var s := [QUOTE] + (WrittenAll(units) + [QUOTE]) + more;
    assert s[1..] == WrittenAll(units) + [QUOTE] + more;
    SpellingIsRead(units, more);
  }

  lemma EmptyIsRead(gap: Text, more: Text)
    requires Space(gap)
    ensures ParseValue([LEFT_BRACE] + (gap + [RIGHT_BRACE]) + more) == Ok(Obj([]), more)
    ensures ParseValue([LEFT_BRACKET] + (gap + [RIGHT_BRACKET]) + more) == Ok(Arr([]), more)
  {
    hide SkipSpace;
    assert ([LEFT_BRACE] + (gap + [RIGHT_BRACE]) + more)[1..] == gap + ([RIGHT_BRACE] + more);
    assert ([LEFT_BRACKET] + (gap + [RIGHT_BRACKET]) + more)[1..] == gap + ([RIGHT_BRACKET] + more);
    SpaceIsSkipped(gap, [RIGHT_BRACE] + more);
    SpaceIsSkipped(gap, [RIGHT_BRACKET] + more);
    assert ([RIGHT_BRACE] + more)[1..] == more && ([RIGHT_BRACKET] + more)[1..] == more;
  }

  /** White space and punctuation behind a value. */
  lemma DelimitsAfter(after: Text, tail: Text)
    requires Space(after) && tail != [] && Delimits(tail) && !White(tail[0])
    ensures Delimits(after + tail) && SkipSpace(after + tail) == tail
  {
    SpaceIsSkipped(after, tail);
    assert after == [] ==> after + tail == tail;
  }

  /** However a document is written, the parser reads the value it stands for. */
  lemma {:induction false} SourceIsRead(t: Syntax, more: Text)
    requires Proper(t) && Delimits(more)
    ensures ParseValue(Source(t) + more) == Ok(Value(t), more)
    decreases t, 0
  {
    match t
    case Word(text, value) => WordIsRead(text, value, more);
    case Number(_, _, _, _) => NumberIsRead(t, more);
    case Quoted(units) => StringIsRead(units, more);
    case EmptyArray(gap) => EmptyIsRead(gap, more);
    case EmptyObject(gap) => EmptyIsRead(gap, more);
    case Array(items) =>
      ItemsAreRead(items, more);
      OpenArray(ItemsText(items), ItemValues(items), more);
    case Object(entries) =>
      EntriesAreRead(entries, more);
      OpenObject(EntriesText(entries), EntryValues(entries), more);
  }

  lemma OpenArray(items: Text, values: seq<Json>, more: Text)
    requires ParseItems(SkipSpace(items + more)) == Ok(values, more) && !Opens(SkipSpace(items + more), RIGHT_BRACKET)
    ensures ParseValue([LEFT_BRACKET] + items + more) == Ok(Arr(values), more)
  {
    hide SkipSpace, ParseItems;
    assert ([LEFT_BRACKET] + items + more)[1..] == items + more;
  }

  lemma OpenObject(members: Text, values: seq<Member>, more: Text)
    requires ParseMembers(SkipSpace(members + more)) == Ok(values, more) && !Opens(SkipSpace(members + more), RIGHT_BRACE)
    ensures ParseValue([LEFT_BRACE] + members + more) == Ok(Obj(values), more)
  {
    hide SkipSpace, ParseMembers;
    assert ([LEFT_BRACE] + members + more)[1..] == members + more;
  }

  /** The tail of a list behind one of its items. */
  function ItemsTail(items: seq<Item>): Text
    requires items != [] && forall i :: 0 <= i < |items| ==> ProperItem(items[i]) && Proper(items[i].value)
  {
    if |items| == 1 then [RIGHT_BRACKET] else [COMMA] + ItemsText(items[1..])
  }

  lemma FirstItem(items: seq<Item>, more: Text)
    requires items != [] && forall i :: 0 <= i < |items| ==> ProperItem(items[i]) && Proper(items[i].value)
    ensures var first := items[0];
      && SkipSpace(ItemsText(items) + more) == Source(first.value) + (first.after + (ItemsTail(items) + more))
      && Delimits(first.after + (ItemsTail(items) + more)) && SkipSpace(first.after + (ItemsTail(items) + more)) == ItemsTail(items) + more
      && !Opens(SkipSpace(ItemsText(items) + more), RIGHT_BRACKET)
  {
    hide SkipSpace, Source;
    var first := items[0];
    var rest := Source(first.value) + (first.after + (ItemsTail(items) + more));
    assert ItemsText(items) + more == first.before + rest;
    SourceOpens(first.value);
    SpaceIsSkipped(first.before, rest);
    DelimitsAfter(first.after, ItemsTail(items) + more);
  }

  lemma ItemValuesFrom(items: seq<Item>)
    requires items != [] && forall i :: 0 <= i < |items| ==> Proper(items[i].value)
    ensures ItemValues(items) == [Value(items[0].value)] + ItemValues(items[1..])
    ensures |items| == 1 ==> ItemValues(items) == [Value(items[0].value)]
  {
    hide Value, Proper;
  }

  lemma ItemsTailFrom(items: seq<Item>, more: Text)
    requires items != [] && forall i :: 0 <= i < |items| ==> ProperItem(items[i]) && Proper(items[i].value)
    ensures var rest := ItemsTail(items) + more;
      if |items| == 1 then rest[0] == RIGHT_BRACKET && rest[1..] == more
      else rest[0] == COMMA && rest[1..] == ItemsText(items[1..]) + more
  {
    hide ItemsText, Proper, Source;
    assert |items| > 1 ==> (ItemsTail(items) + more)[1..] == ItemsText(items[1..]) + more;
  }

  lemma {:induction false} ItemsAreRead(items: seq<Item>, more: Text)
    requires items != [] && forall i :: 0 <= i < |items| ==> ProperItem(items[i]) && Proper(items[i].value)
    ensures ParseItems(SkipSpace(ItemsText(items) + more)) == Ok(ItemValues(items), more)
    ensures !Opens(SkipSpace(ItemsText(items) + more), RIGHT_BRACKET)
    decreases items, 2
  {
    hide SkipSpace, Source, Delimits, ItemsText, ItemValues, ParseItems, Value, ParseValue;
    var first, rest := items[0], ItemsTail(items) + more;
    FirstItem(items, more);
    SourceIsRead(first.value, first.after + rest);
    NextItem(Source(first.value) + (first.after + rest), Value(first.value), first.after + rest, rest);
    if |items| > 1 {
      ItemsAreRead(items[1..], more);
    }
    ItemValuesFrom(items);
    ItemsTailFrom(items, more);
  }

  lemma NextItem(s: Text, item: Json, afterItem: Text, rest: Text)
    requires ParseValue(s) == Ok(item, afterItem) && SkipSpace(afterItem) == rest && rest != []
    ensures ParseItems(s) ==
      if rest[0] == RIGHT_BRACKET then Ok([item], rest[1..])
      else if rest[0] == COMMA then
        match ParseItems(SkipSpace(rest[1..])) { case Fail => Fail case Ok(others, end) => Ok([item] + others, end) }
      else Fail
  {
    hide ParseValue, SkipSpace;
  }

  /** The tail of an object behind one of its entries. */
  function EntriesTail(entries: seq<Entry>): Text
    requires entries != [] && forall i :: 0 <= i < |entries| ==> ProperEntry(entries[i]) && Proper(entries[i].value)
  {
    if |entries| == 1 then [RIGHT_BRACE] else [COMMA] + EntriesText(entries[1..])
  }

  lemma MemberByParts(key: Text, rest: Text, separator: Text, value: Json, afterValue: Text, name: Text, tail: Text)
    requires ParseString(key) == Ok(name, rest) && SkipSpace(rest) == separator && Opens(separator, COLON)
    requires ParseValue(SkipSpace(separator[1..])) == Ok(value, afterValue) && SkipSpace(afterValue) == tail
    ensures ParseMember([QUOTE] + key) == Ok(Member(name, value), tail)
  {
    hide ParseValue, SkipSpace, ParseString;
    assert ([QUOTE] + key)[1..] == key;
  }

  lemma {:induction false} EntryIsRead(e: Entry, tail: Text)
    requires ProperEntry(e) && Proper(e.value) && tail != [] && (tail[0] == COMMA || tail[0] == RIGHT_BRACE)
    ensures ParseMember(EntryText(e, tail)) == Ok(Member(TextOf(e.key), Value(e.value)), tail)
    decreases e, 1
  {
    hide EntryText, ParseMember, ParseValue, Source, Value, SkipSpace;
    DelimitsAfter(e.after, tail);
    SourceIsRead(e.value, e.after + tail);
    EntryByParts(e, tail);
  }

  lemma EntryByParts(e: Entry, tail: Text)
    requires ProperEntry(e) && Proper(e.value) && SkipSpace(e.after + tail) == tail
    requires ParseValue(Source(e.value) + (e.after + tail)) == Ok(Value(e.value), e.after + tail)
    ensures ParseMember(EntryText(e, tail)) == Ok(Member(TextOf(e.key), Value(e.value)), tail)
  {
    hide SkipSpace, WrittenAll, TextOf, ParseMember, ParseValue, Source, Value, ParseString;
    var valueText := Source(e.value) + (e.after + tail);
    var separator := [COLON] + (e.afterColon + valueText);
    var key := WrittenAll(e.key) + ([QUOTE] + (e.beforeColon + separator));
    KeyIsRead(e.key, e.beforeColon + separator);
    SpaceIsSkipped(e.beforeColon, separator);
    assert separator[1..] == e.afterColon + valueText;
    SourceOpens(e.value);
    SpaceIsSkipped(e.afterColon, valueText);
    MemberByParts(key, e.beforeColon + separator, separator, Value(e.value), e.after + tail, TextOf(e.key), tail);
  }

  lemma KeyIsRead(key: seq<Spelling>, rest: Text)
    requires ProperAll(key)
    ensures ParseString(WrittenAll(key) + ([QUOTE] + rest)) == Ok(TextOf(key), rest)
  {
    hide WrittenAll, TextOf, ParseString;
    SpellingIsRead(key, rest);
    assert WrittenAll(key) + ([QUOTE] + rest) == WrittenAll(key) + [QUOTE] + rest;
  }

  lemma EntryTextGoesOn(e: Entry, tail: Text, more: Text)
    requires ProperEntry(e) && Proper(e.value)
    ensures EntryText(e, tail) + more == EntryText(e, tail + more) && Opens(EntryText(e, tail + more), QUOTE)
  {
    hide Source, WrittenAll;
    Joins(e.after, tail, more);
    Joins(Source(e.value), e.after + tail, more);
    Joins(e.afterColon, Source(e.value) + (e.after + tail), more);
    var value := e.afterColon + (Source(e.value) + (e.after + tail));
    Joins([COLON], value, more);
    Joins(e.beforeColon, [COLON] + value, more);
    Joins([QUOTE], e.beforeColon + ([COLON] + value), more);
    Joins(WrittenAll(e.key), [QUOTE] + (e.beforeColon + ([COLON] + value)), more);
    Joins([QUOTE], WrittenAll(e.key) + ([QUOTE] + (e.beforeColon + ([COLON] + value))), more);
  }

  lemma Joins(a: Text, b: Text, more: Text)
    ensures a + b + more == a + (b + more)
  {
  }

  lemma {:induction false} EntriesAreRead(entries: seq<Entry>, more: Text)
    requires entries != [] && forall i :: 0 <= i < |entries| ==> ProperEntry(entries[i]) && Proper(entries[i].value)
    ensures ParseMembers(SkipSpace(EntriesText(entries) + more)) == Ok(EntryValues(entries), more)
    ensures !Opens(SkipSpace(EntriesText(entries) + more), RIGHT_BRACE)
    decreases entries, 2
  {
    hide SkipSpace, Source, EntriesText, EntryValues, EntryText, TextOf, ParseMembers, Value, ParseMember;
    var first, rest := entries[0], EntriesTail(entries) + more;
    FirstEntry(entries, more);
    EntryIsRead(first, rest);
    NextMember(EntryText(first, rest), Member(TextOf(first.key), Value(first.value)), rest);
    if |entries| > 1 {
      EntriesAreRead(entries[1..], more);
    }
  }

  lemma FirstEntry(entries: seq<Entry>, more: Text)
    requires entries != [] && forall i :: 0 <= i < |entries| ==> ProperEntry(entries[i]) && Proper(entries[i].value)
    ensures var first, rest := entries[0], EntriesTail(entries) + more;
      && ProperEntry(first) && SkipSpace(EntriesText(entries) + more) == EntryText(first, rest) && Opens(EntryText(first, rest), QUOTE)
      && EntryValues(entries) == [Member(TextOf(first.key), Value(first.value))] + EntryValues(entries[1..])
      && if |entries| == 1 then rest[0] == RIGHT_BRACE && rest[1..] == more && EntryValues(entries) == [Member(TextOf(first.key), Value(first.value))]
         else rest[0] == COMMA && rest[1..] == EntriesText(entries[1..]) + more
  {
    hide *;
    FirstEntryOpens(entries, more);
    FirstValue(entries);
    TailGoesOn(entries, more);
  }

  lemma FirstValue(entries: seq<Entry>)
    requires entries != [] && forall i :: 0 <= i < |entries| ==> ProperEntry(entries[i]) && Proper(entries[i].value)
    ensures ProperEntry(entries[0])
    ensures EntryValues(entries) == [Member(TextOf(entries[0].key), Value(entries[0].value))] + EntryValues(entries[1..])
    ensures |entries| == 1 ==> EntryValues(entries) == [Member(TextOf(entries[0].key), Value(entries[0].value))]
  {
    hide TextOf, Value, Proper;
  }

  lemma TailGoesOn(entries: seq<Entry>, more: Text)
    requires entries != [] && forall i :: 0 <= i < |entries| ==> ProperEntry(entries[i]) && Proper(entries[i].value)
    ensures var rest := EntriesTail(entries) + more;
      if |entries| == 1 then rest[0] == RIGHT_BRACE && rest[1..] == more
      else rest[0] == COMMA && rest[1..] == EntriesText(entries[1..]) + more
  {
    hide EntriesText, ProperEntry, Proper;
  }

  lemma FirstEntryOpens(entries: seq<Entry>, more: Text)
    requires entries != [] && forall i :: 0 <= i < |entries| ==> ProperEntry(entries[i]) && Proper(entries[i].value)
    ensures var first, rest := entries[0], EntriesTail(entries) + more;
      ProperEntry(first) && SkipSpace(EntriesText(entries) + more) == EntryText(first, rest) && Opens(EntryText(first, rest), QUOTE)
  {
    hide SkipSpace, Source, EntryText, TextOf, Value;
    var first, tail := entries[0], EntriesTail(entries);
    assert ProperEntry(first);
    EntryTextGoesOn(first, tail, more);
    Joins(first.before, EntryText(first, tail), more);
    SpaceIsSkipped(first.before, EntryText(first, tail + more));
  }

  lemma NextMember(s: Text, member: Member, rest: Text)
    requires ParseMember(s) == Ok(member, rest) && rest != []
    ensures ParseMembers(s) ==
      if rest[0] == RIGHT_BRACE then Ok([member], rest[1..])
      else if rest[0] == COMMA then
        match ParseMembers(SkipSpace(rest[1..])) { case Fail => Fail case Ok(others, end) => Ok([member] + others, end) }
      else Fail
  {
    hide ParseMember, SkipSpace;
  }

  // -- And nothing else is ---------------------------------------------------------

  lemma FractionIsText(s: Text) returns (fraction: Text)
    ensures AllDigits(fraction) && FractionText(fraction) == s[..FractionLength(s)]
  {
    var n := FractionLength(s);
    if n == 0 {
      fraction := [];
    } else {
      fraction := s[1..n];
      assert s[1..][..n - 1] == fraction;
      assert forall i :: 0 <= i < n - 1 ==> fraction[i] == s[1..][i];
    }
  }

  lemma ExponentIsText(s: Text) returns (e: Exponent)
    ensures ProperExponent(e) && ExponentText(e) == s[..ExponentLength(s)]
  {
    var n := ExponentLength(s);
    if n == 0 {
      e := NoExponent;
    } else {
      var sign := if |s| >= 2 && (s[1] == 0x2B || s[1] == 0x2D) then 2 else 1;
      var digits := s[sign..n];
      assert forall i :: 0 <= i < |digits| ==> digits[i] == s[sign..][i];
      e := Exponent(s[0], s[1..sign], digits);
      assert s[..n] == [s[0]] + s[1..sign] + digits;
      assert sign == 2 ==> s[1..sign] == [s[1]];
    }
  }

  lemma UnsignedIsText(d: Text, negative: bool) returns (t: Syntax)
    requires d != [] && IsDigit(d[0]) && ParseUnsigned(d, negative).Ok?
    ensures t.Number? && t.negative == negative && ProperNumber(t) && Value(t) == ParseUnsigned(d, negative).value
    ensures d == t.whole + (FractionText(t.fraction) + ExponentText(t.exponent)) + ParseUnsigned(d, negative).rest
  {
    hide *;
    var w := WholeLength(d);
    UnsignedByWhole(d, w);
    var f := FractionLength(d[w..]);
    var e := ExponentLength(d[w..][f..]);
    var fraction := FractionIsText(d[w..]);
    var exponent := ExponentIsText(d[w..][f..]);
    SuffixOfSuffix(d, w, f);
    UnsignedByParts(d, negative, w, f, e);
    t := Number(negative, d[..w], fraction, exponent);
    EmptyParts(fraction, exponent);
    ThreeParts(d, w, f, e);
    PartsAreNumber(d, t, w, f, e);
  }

  lemma SuffixOfSuffix(d: Text, w: nat, f: nat)
    requires w + f <= |d|
    ensures d[w..][f..] == d[w + f..]
  {
  }

  lemma ThreeParts(d: Text, w: nat, f: nat, e: nat)
    requires w + f + e <= |d|
    ensures d == d[..w] + (d[w..][..f] + d[w + f..][..e]) + d[w + f + e..]
    ensures d[..w + f + e] == d[..w] + (d[w..][..f] + d[w + f..][..e])
  {
  }

  lemma PartsAreNumber(d: Text, t: Syntax, w: nat, f: nat, e: nat)
    requires t.Number? && 0 < w && w + f + e <= |d| && t.whole == d[..w] && AllDigits(t.whole) && (d[0] == 0x30 ==> w == 1)
    requires AllDigits(t.fraction) && ProperExponent(t.exponent) && (f + e == 0 ==> w <= MAX_INT_DIGITS)
    requires FractionText(t.fraction) == d[w..][..f] && ExponentText(t.exponent) == d[w + f..][..e]
    requires (f == 0 <==> t.fraction == []) && (e == 0 <==> t.exponent.NoExponent?)
    requires d[..w + f + e] == d[..w] + (d[w..][..f] + d[w + f..][..e])
    ensures ProperNumber(t)
    ensures Value(t) ==
      if f + e > 0 then Float((if t.negative then [0x2D] else []) + d[..w + f + e])
      else Int(if t.negative then 0 - DecimalValue(d[..w]) else DecimalValue(d[..w]))
  {
    hide FractionText, ExponentText, AllDigits, ProperExponent, DecimalValue;
  }

  lemma UnsignedByWhole(d: Text, w: nat)
    requires d != [] && IsDigit(d[0]) && w == WholeLength(d)
    ensures 0 < w <= |d| && AllDigits(d[..w]) && (d[0] == 0x30 ==> w == 1)
    ensures forall negative :: ParseUnsigned(d, negative).Ok? ==>
      w <= MAX_INT_DIGITS || FractionLength(d[w..]) + ExponentLength(d[w..][FractionLength(d[w..])..]) > 0
  {
    hide FractionLength, ExponentLength, DecimalValue, DigitCount;
  }

  lemma NumberIsText(s: Text) returns (t: Syntax)
    requires s != [] && ParseNumber(s).Ok?
    ensures Proper(t) && Value(t) == ParseNumber(s).value && s == Source(t) + ParseNumber(s).rest
  {
    hide ParseUnsigned, FractionText, ExponentText, DecimalValue;
    var negative := s[0] == 0x2D;
    var d := if negative then s[1..] else s;
    t := UnsignedIsText(d, negative);
    assert s == (if negative then [0x2D] else []) + d;
    Joins(if negative then [0x2D] else [], t.whole + (FractionText(t.fraction) + ExponentText(t.exponent)), ParseNumber(s).rest);
  }

  lemma ScalarIsText(s: Text) returns (t: Syntax)
    requires s != [] && ParseScalar(s).Ok?
    ensures Proper(t) && Value(t) == ParseScalar(s).value && s == Source(t) + ParseScalar(s).rest
  {
    hide ParseNumber;
    if NULL <= s { t := WordIsText(s, NULL, Null, 0); }
    else if TRUE <= s { t := WordIsText(s, TRUE, Bool(true), 1); }
    else if FALSE <= s { t := WordIsText(s, FALSE, Bool(false), 2); }
    else if NAN <= s { t := WordIsText(s, NAN, Float(NAN), 3); }
    else if INFINITY <= s { t := WordIsText(s, INFINITY, Float(INFINITY), 4); }
    else if MINUS_INFINITY <= s { t := WordIsText(s, MINUS_INFINITY, Float(MINUS_INFINITY), 5); }
    else { t := NumberIsText(s); }
  }

  lemma WordIsText(s: Text, word: Text, value: Json, i: nat) returns (t: Syntax)
    requires word <= s && i < |WORDS| && WORDS[i] == (word, value)
    ensures Proper(t) && Value(t) == value && s == Source(t) + s[|word|..]
  {
    t := Word(word, value);
    assert WORDS[i] in WORDS;
    assert s == word + s[|word|..];
  }

  /** Whatever the parser reads as a value is one of the ways to write it. */
  lemma {:induction false} ReadIsSource(s: Text) returns (t: Syntax)
    requires ParseValue(s).Ok?
    ensures Proper(t) && Value(t) == ParseValue(s).value && s == Source(t) + ParseValue(s).rest
    decreases |s|, 1
  {
    hide SkipSpace, ParseScalar, ParseString, ParseMembers, ParseItems;
    if s[0] == QUOTE {
      t := ReadString(s);
    } else if s[0] == LEFT_BRACE {
      t := ReadObject(s);
    } else if s[0] == LEFT_BRACKET {
      t := ReadArray(s);
    } else {
      t := ScalarIsText(s);
    }
  }

  lemma ReadString(s: Text) returns (t: Syntax)
    requires ParseValue(s).Ok? && s[0] == QUOTE
    ensures Proper(t) && Value(t) == ParseValue(s).value && s == Source(t) + ParseValue(s).rest
  {
    hide ParseString, WrittenAll, TextOf;
    var units := ReadIsSpelling(s[1..]);
    t := Quoted(units);
    assert s == [QUOTE] + s[1..];
    Joins([QUOTE], WrittenAll(units) + [QUOTE], ParseValue(s).rest);
  }

  lemma {:induction false} ReadObject(s: Text) returns (t: Syntax)
    requires ParseValue(s).Ok? && s[0] == LEFT_BRACE
    ensures Proper(t) && Value(t) == ParseValue(s).value && s == Source(t) + ParseValue(s).rest
    decreases |s|, 0
  {
    hide SkipSpace, ParseMembers, EntriesText, EntryValues, ProperEntry;
    var gap := SkippedIsSpace(s[1..]);
    var inner := SkipSpace(s[1..]);
    assert s == [LEFT_BRACE] + s[1..];
    if Opens(inner, RIGHT_BRACE) {
      t := EmptyObject(gap);
      assert inner == [RIGHT_BRACE] + inner[1..];
      assert s == [LEFT_BRACE] + (gap + [RIGHT_BRACE]) + inner[1..];
    } else {
      var entries := ReadEntries(gap, inner);
      t := Object(entries);
      Joins([LEFT_BRACE], EntriesText(entries), ParseValue(s).rest);
    }
  }

  lemma {:induction false} ReadArray(s: Text) returns (t: Syntax)
    requires ParseValue(s).Ok? && s[0] == LEFT_BRACKET
    ensures Proper(t) && Value(t) == ParseValue(s).value && s == Source(t) + ParseValue(s).rest
    decreases |s|, 0
  {
    hide SkipSpace, ParseItems, ItemsText, ItemValues, ProperItem;
    var gap := SkippedIsSpace(s[1..]);
    var inner := SkipSpace(s[1..]);
    assert s == [LEFT_BRACKET] + s[1..];
    if Opens(inner, RIGHT_BRACKET) {
      t := EmptyArray(gap);
      assert inner == [RIGHT_BRACKET] + inner[1..];
      assert s == [LEFT_BRACKET] + (gap + [RIGHT_BRACKET]) + inner[1..];
    } else {
      var items := ReadItems(gap, inner);
      t := Array(items);
      Joins([LEFT_BRACKET], ItemsText(items), ParseValue(s).rest);
    }
  }

  lemma {:induction false} ReadEntry(gap: Text, s: Text) returns (e: Entry)
    requires Space(gap) && ParseMember(s).Ok?
    ensures ProperEntry(e) && Proper(e.value) && e.before == gap
    ensures ParseMember(s).value == Member(TextOf(e.key), Value(e.value)) && s == EntryText(e, ParseMember(s).rest)
    decreases |s|, 2
  {
    hide SkipSpace, ParseValue, ParseString, Source, Value, WrittenAll, TextOf;
    var afterKey := ParseString(s[1..]).rest;
    var separator := SkipSpace(afterKey);
    var valueText := SkipSpace(separator[1..]);
    var afterValue := ParseValue(valueText).rest;
    var key := ReadIsSpelling(s[1..]);
    var beforeColon := SkippedIsSpace(afterKey);
    var afterColon := SkippedIsSpace(separator[1..]);
    var value := ReadIsSource(valueText);
    var after := SkippedIsSpace(afterValue);
    e := Entry(gap, key, beforeColon, afterColon, value, after);
    assert separator == [COLON] + separator[1..] && s == [QUOTE] + s[1..];
    Joins(WrittenAll(key), [QUOTE], afterKey);
  }

  lemma {:induction false} ReadEntries(gap: Text, s: Text) returns (entries: seq<Entry>)
    requires Space(gap) && ParseMembers(s).Ok?
    ensures entries != [] && forall i :: 0 <= i < |entries| ==> ProperEntry(entries[i]) && Proper(entries[i].value)
    ensures EntryValues(entries) == ParseMembers(s).value && gap + s == EntriesText(entries) + ParseMembers(s).rest
    decreases |s|, 3
  {
    hide SkipSpace, ParseMember, EntriesText, EntryText, Value, TextOf, ProperEntry, Proper, EntryValues;
    var first := ReadEntry(gap, s);
    var rest := ParseMember(s).rest;
    if Opens(rest, RIGHT_BRACE) {
      entries := [first];
      assert rest == [RIGHT_BRACE] + rest[1..];
      LastEntry(first, rest[1..]);
    } else {
      var next := SkippedIsSpace(rest[1..]);
      var others := ReadEntries(next, SkipSpace(rest[1..]));
      entries := [first] + others;
      assert rest == [COMMA] + rest[1..];
      MoreEntries(first, others, ParseMembers(s).rest);
    }
  }

  lemma LastEntry(first: Entry, more: Text)
    requires ProperEntry(first) && Proper(first.value)
    ensures EntryValues([first]) == [Member(TextOf(first.key), Value(first.value))]
    ensures first.before + EntryText(first, [RIGHT_BRACE] + more) == EntriesText([first]) + more
  {
    hide EntryText, Value, TextOf;
    EntryTextGoesOn(first, [RIGHT_BRACE], more);
    assert [first][1..] == [] && ProperEntry([first][0]);
    Joins(first.before, EntryText(first, [RIGHT_BRACE]), more);
  }

  lemma MoreEntries(first: Entry, others: seq<Entry>, more: Text)
    requires ProperEntry(first) && Proper(first.value) && others != []
    requires forall i :: 0 <= i < |others| ==> ProperEntry(others[i]) && Proper(others[i].value)
    ensures var entries := [first] + others;
      && (forall i :: 0 <= i < |entries| ==> ProperEntry(entries[i]) && Proper(entries[i].value))
      && EntryValues(entries) == [Member(TextOf(first.key), Value(first.value))] + EntryValues(others)
      && first.before + EntryText(first, [COMMA] + (EntriesText(others) + more)) == EntriesText(entries) + more
  {
    hide EntryText, Value, TextOf, ProperEntry, Proper;
    var entries := [first] + others;
    assert entries[1..] == others;
    Joins([COMMA], EntriesText(others), more);
    EntryTextGoesOn(first, [COMMA] + EntriesText(others), more);
    Joins(first.before, EntryText(first, [COMMA] + EntriesText(others)), more);
  }

  lemma {:induction false} ReadItems(gap: Text, s: Text) returns (items: seq<Item>)
    requires Space(gap) && ParseItems(s).Ok?
    ensures items != [] && forall i :: 0 <= i < |items| ==> ProperItem(items[i]) && Proper(items[i].value)
    ensures ItemValues(items) == ParseItems(s).value && gap + s == ItemsText(items) + ParseItems(s).rest
    decreases |s|, 3
  {
    hide SkipSpace, ParseValue, ItemsText, Source, Value, Proper, ItemValues;
    var value := ReadIsSource(s);
    var rest := ParseValue(s).rest;
    var after := SkippedIsSpace(rest);
    var first, next := Item(gap, value, after), SkipSpace(rest);
    if Opens(next, RIGHT_BRACKET) {
      items := [first];
      assert next == [RIGHT_BRACKET] + next[1..];
      LastItem(first, next[1..]);
    } else {
      var between := SkippedIsSpace(next[1..]);
      var others := ReadItems(between, SkipSpace(next[1..]));
      items := [first] + others;
      assert next == [COMMA] + next[1..];
      MoreItems(first, others, ParseItems(s).rest);
    }
  }

  lemma LastItem(first: Item, more: Text)
    requires ProperItem(first) && Proper(first.value)
    ensures ItemValues([first]) == [Value(first.value)]
    ensures first.before + (Source(first.value) + (first.after + ([RIGHT_BRACKET] + more))) == ItemsText([first]) + more
  {
    hide Source, Value;
    assert [first][1..] == [] && ProperItem([first][0]);
    ItemJoins(first, [RIGHT_BRACKET], more);
  }

  lemma ItemJoins(first: Item, tail: Text, more: Text)
    requires Proper(first.value)
    ensures first.before + (Source(first.value) + (first.after + tail)) + more
      == first.before + (Source(first.value) + (first.after + (tail + more)))
  {
    hide Source;
  }

  lemma MoreItems(first: Item, others: seq<Item>, more: Text)
    requires ProperItem(first) && Proper(first.value) && others != []
    requires forall i :: 0 <= i < |others| ==> ProperItem(others[i]) && Proper(others[i].value)
    ensures var items := [first] + others;
      && (forall i :: 0 <= i < |items| ==> ProperItem(items[i]) && Proper(items[i].value))
      && ItemValues(items) == [Value(first.value)] + ItemValues(others)
      && first.before + (Source(first.value) + (first.after + ([COMMA] + (ItemsText(others) + more)))) == ItemsText(items) + more
  {
    hide Source, Value, Proper;
    var items := [first] + others;
    assert items[1..] == others;
    Joins([COMMA], ItemsText(others), more);
    ItemJoins(first, [COMMA] + ItemsText(others), more);
  }

  /** `json.loads` and the grammar agree: a document is loaded if and only if it is one of the
      ways to write some value, and it is loaded as that value. */
  lemma LoadsExactlyDocuments(document: Text, j: Json)
    ensures Loads(document) == Some(j) <==>
      exists before, t, after :: Space(before) && Proper(t) && Space(after) && Value(t) == j && document == before + (Source(t) + after)
  {
    hide ParseValue, Source, Value, Proper, SkipSpace, Space;
    if Loads(document) == Some(j) {
      var before := SkippedIsSpace(document);
      var t := ReadIsSource(SkipSpace(document));
      var after := SkippedIsSpace(ParseValue(SkipSpace(document)).rest);
      assert document == before + (Source(t) + after);
    }
    forall before, t, after | Space(before) && Proper(t) && Space(after) && Value(t) == j && document == before + (Source(t) + after)
      ensures Loads(document) == Some(j)
    {
      DocumentIsLoaded(before, t, after);
    }
  }

  lemma DocumentIsLoaded(before: Text, t: Syntax, after: Text)
    requires Space(before) && Proper(t) && Space(after)
    ensures Loads(before + (Source(t) + after)) == Some(Value(t))
  {
    hide ParseValue, Source, Value;
    SourceOpens(t);
    SpaceIsSkipped(before, Source(t) + after);
    SourceIsRead(t, after);
    SpaceIsSkipped(after, []);
    assert after + [] == after;
  }
}
