/** What has been parsed stays parsed when the text goes on, so an object that is cut short
    does not parse at all (RFC 8259, sections 2 to 7). */
module JsonPrefix {
  import opened Unicode
  import opened Wrappers
  import opened Json

  // -- Strings ---------------------------------------------------------------------

  /** Inside a string that ends, an escape is complete or it is none. */
  lemma EscapeStable(s: Text, more: Text)
    requires ParseString(s).Ok?
    ensures UnicodeEscape(s + more) <==> UnicodeEscape(s)
    ensures UnicodeEscape(s) ==> (s + more)[2..6] == s[2..6]
  {
    if |s| < 6 && s[0] == BACKSLASH {
      assert FirstUnit(s).Unit?;
    }
    if |s| >= 6 {
      assert (s + more)[2..6] == s[2..6];
    }
  }

  lemma UnitStable(s: Text, more: Text)
    requires ParseString(s).Ok? && s[0] != QUOTE
    ensures FirstUnit(s).Unit? && FirstUnit(s + more) == FirstUnit(s)
  {
    EscapeStable(s, more);
    hide IsHex4, HexDigit, Hex4, IsHigh, IsLow;
    if UnicodeEscape(s) {
      EscapeUnitStable(s, more);
    } else if s[0] == BACKSLASH {
      hide UnicodeEscape;
      assert |s| >= 2 && (s + more)[1] == s[1];
    }
  }

  lemma EscapeUnitStable(s: Text, more: Text)
    requires ParseString(s).Ok? && UnicodeEscape(s) && UnicodeEscape(s + more) && (s + more)[2..6] == s[2..6]
    ensures FirstUnit(s + more) == FirstUnit(s)
  {
    hide IsHigh, IsLow;
    var t := s[6..];
    assert (s + more)[6..] == t + more;
    if UnicodeEscape(t) {
      assert (t + more)[2..6] == t[2..6] && UnicodeEscape(t + more);
    } else {
      assert FirstUnit(s) == Unit(Hex4(s[2..6]), 6);
      EscapeStable(t, more);
    }
    hide UnicodeEscape, Hex4, ParseString;
  }

  lemma {:induction false} StringStable(s: Text, more: Text)
    requires ParseString(s).Ok?
    ensures ParseString(s + more) == Ok(ParseString(s).value, ParseString(s).rest + more)
    decreases |s|
  {
    if s[0] == QUOTE {
      assert (s + more)[1..] == s[1..] + more;
    } else {
      UnitStable(s, more);
      hide FirstUnit;
      var n := FirstUnit(s).len;
      assert (s + more)[n..] == s[n..] + more;
      StringStable(s[n..], more);
    }
  }

  // -- Numbers and literals --------------------------------------------------------

  /** What follows a number inside an object or array. */
  predicate Delimits(rest: Text) {
    rest != [] && (IsJsonSpace(rest[0]) || rest[0] == COMMA || rest[0] == RIGHT_BRACE || rest[0] == RIGHT_BRACKET)
  }

  lemma {:induction false} DigitsStable(s: Text, more: Text)
    requires DigitCount(s) < |s|
    ensures DigitCount(s + more) == DigitCount(s)
  {
    if IsDigit(s[0]) {
      assert (s + more)[1..] == s[1..] + more;
      DigitsStable(s[1..], more);
    }
  }

  lemma FractionStable(s: Text, more: Text)
    requires FractionLength(s) < |s| && (FractionLength(s) == 0 ==> s[0] != 0x2E)
    ensures FractionLength(s + more) == FractionLength(s)
  {
    if FractionLength(s) > 0 {
      assert (s + more)[1..] == s[1..] + more;
      DigitsStable(s[1..], more);
    }
  }

  lemma ExponentStable(s: Text, more: Text)
    requires ExponentLength(s) < |s| && (ExponentLength(s) == 0 ==> s[0] != 0x65 && s[0] != 0x45)
    ensures ExponentLength(s + more) == ExponentLength(s)
  {
    if ExponentLength(s) > 0 {
      var sign := if |s| >= 2 && (s[1] == 0x2B || s[1] == 0x2D) then 2 else 1;
      assert (s + more)[sign..] == s[sign..] + more;
      DigitsStable(s[sign..], more);
    }
  }

  lemma WholeStable(d: Text, more: Text)
    requires d != [] && IsDigit(d[0]) && WholeLength(d) < |d|
    ensures WholeLength(d + more) == WholeLength(d)
  {
    if d[0] != 0x30 { DigitsStable(d, more); }
  }

  /** What follows the digits of a number up to its delimiter. */
  lemma TailStable(tail: Text, f: nat, e: nat, more: Text)
    requires f == FractionLength(tail) && e == ExponentLength(tail[f..]) && Delimits(tail[f + e..])
    ensures FractionLength(tail + more) == f && ExponentLength(tail[f..] + more) == e
  {
    assert tail[f..][e..] == tail[f + e..] && tail[0..] == tail && tail[f..][0..] == tail[f..];
    if f == 0 && e > 0 { ExponentOpens(tail); }
    FractionStable(tail, more);
    ExponentStable(tail[f..], more);
  }

  lemma ExponentOpens(s: Text)
    ensures ExponentLength(s) > 0 ==> s[0] == 0x65 || s[0] == 0x45
  {
  }

  /** The number with this spelling, `whole` digits of it before any fraction. */
  function NumberOf(spelling: Text, whole: nat, negative: bool, rest: Text): Parse<Json>
    requires whole <= |spelling| && forall i :: 0 <= i < whole ==> IsDigit(spelling[i])
  {
    if |spelling| > whole then Ok(Float((if negative then [0x2D] else []) + spelling), rest)
    else if whole > MAX_INT_DIGITS then Fail
    else Ok(Int(if negative then 0 - DecimalValue(spelling) else DecimalValue(spelling)), rest)
  }

  lemma UnsignedParts(d: Text, negative: bool, n: nat, extra: nat)
    requires d != [] && IsDigit(d[0]) && n == WholeLength(d) && n + extra <= |d|
    requires extra == FractionLength(d[n..]) + ExponentLength(d[n..][FractionLength(d[n..])..])
    ensures ParseUnsigned(d, negative) == NumberOf(d[..n + extra], n, negative, d[n + extra..])
  {
    hide WholeLength, FractionLength, ExponentLength, DecimalValue;
    assert d[n..][extra..] == d[n + extra..];
  }

  lemma RestOfNumber(spelling: Text, whole: nat, negative: bool, rest: Text, more: Text)
    requires whole <= |spelling| && forall i :: 0 <= i < whole ==> IsDigit(spelling[i])
    ensures NumberOf(spelling, whole, negative, rest).Ok? ==>
      NumberOf(spelling, whole, negative, rest).rest == rest
      && NumberOf(spelling, whole, negative, rest + more) == Ok(NumberOf(spelling, whole, negative, rest).value, rest + more)
  {
    hide DecimalValue;
  }

  lemma UnsignedStable(d: Text, negative: bool, more: Text)
    requires d != [] && IsDigit(d[0]) && ParseUnsigned(d, negative).Ok? && Delimits(ParseUnsigned(d, negative).rest)
    ensures ParseUnsigned(d + more, negative) == Ok(ParseUnsigned(d, negative).value, ParseUnsigned(d, negative).rest + more)
  {
    hide WholeLength, FractionLength, ExponentLength, ParseUnsigned, NumberOf, Delimits;
    var n := WholeLength(d);
    var tail := d[n..];
    var f := FractionLength(tail);
    var extra := f + ExponentLength(tail[f..]);
    UnsignedParts(d, negative, n, extra);
    RestOfNumber(d[..n + extra], n, negative, d[n + extra..], more);
    Delimited(d, n, extra);
    TailStable(tail, f, extra - f, more);
    WholeStable(d, more);
    Slices(d, more, n);
    Slices(tail, more, f);
    Slices(d, more, n + extra);
    UnsignedParts(d + more, negative, n, extra);
  }

  lemma Delimited(d: Text, n: nat, extra: nat)
    requires n + extra <= |d| && Delimits(d[n + extra..])
    ensures n + extra < |d| && Delimits(d[n..][extra..])
  {
    assert d[n..][extra..] == d[n + extra..];
  }

  lemma Slices(s: Text, more: Text, n: nat)
    requires n <= |s|
    ensures (s + more)[n..] == s[n..] + more && (s + more)[..n] == s[..n]
  {
  }

  lemma ScalarStable(s: Text, more: Text)
    requires s != [] && ParseScalar(s).Ok? && Delimits(ParseScalar(s).rest)
    ensures ParseScalar(s + more) == Ok(ParseScalar(s).value, ParseScalar(s).rest + more)
  {
    if NULL <= s || TRUE <= s || FALSE <= s || NAN <= s || INFINITY <= s || MINUS_INFINITY <= s {
      LiteralStable(s, more);
    } else {
      NumberStable(s, more);
    }
  }

  lemma LiteralStable(s: Text, more: Text)
    requires NULL <= s || TRUE <= s || FALSE <= s || NAN <= s || INFINITY <= s || MINUS_INFINITY <= s
    ensures s != [] && ParseScalar(s).Ok? && ParseScalar(s + more) == Ok(ParseScalar(s).value, ParseScalar(s).rest + more)
  {
    hide ParseNumber;
    assert forall n :: 0 <= n <= |s| ==> (s + more)[n..] == s[n..] + more;
    assert s[0] == (s + more)[0];
    assert NULL[0] == 0x6E && TRUE[0] == 0x74 && FALSE[0] == 0x66 && NAN[0] == 0x4E && INFINITY[0] == 0x49 && MINUS_INFINITY[0] == 0x2D;
  }

  lemma NumberStable(s: Text, more: Text)
    requires s != [] && !(NULL <= s || TRUE <= s || FALSE <= s || NAN <= s || INFINITY <= s || MINUS_INFINITY <= s)
    requires ParseNumber(s).Ok? && Delimits(ParseNumber(s).rest)
    ensures ParseScalar(s + more) == Ok(ParseNumber(s).value, ParseNumber(s).rest + more)
  {
    hide ParseUnsigned, Delimits;
    var negative := s[0] == 0x2D;
    var d := if negative then s[1..] else s;
    UnsignedStable(d, negative, more);
    assert (s + more)[0] == s[0] && (negative ==> (s + more)[1..] == d + more && (s + more)[1] == d[0]);
    assert NULL[0] == 0x6E && TRUE[0] == 0x74 && FALSE[0] == 0x66 && NAN[0] == 0x4E && INFINITY[0] == 0x49;
    assert MINUS_INFINITY[0] == 0x2D && MINUS_INFINITY[1] == 0x49;
  }

  // -- Values ----------------------------------------------------------------------

  lemma {:induction false} SpaceStable(s: Text, more: Text)
    requires SkipSpace(s) != []
    ensures SkipSpace(s + more) == SkipSpace(s) + more
  {
    if IsJsonSpace(s[0]) {
      assert (s + more)[1..] == s[1..] + more;
      SpaceStable(s[1..], more);
    }
  }

  /** What is left before the next comma or bracket delimits. */
  lemma SpaceDelimits(rest: Text)
    requires SkipSpace(rest) != [] && Delimits(SkipSpace(rest))
    ensures Delimits(rest)
  {
  }

  predicate Closed(j: Json) { j.Str? || j.Arr? || j.Obj? }

  /** A string, array or object stays as it is whatever follows; any other value when it is
      delimited. */
  lemma {:induction false} ValueStable(s: Text, more: Text)
    requires ParseValue(s).Ok? && (Closed(ParseValue(s).value) || Delimits(ParseValue(s).rest))
    ensures ParseValue(s + more) == Ok(ParseValue(s).value, ParseValue(s).rest + more)
    decreases |s|, 1
  {
    hide ParseString, ParseScalar, Delimits;
    assert (s + more)[0] == s[0] && (s + more)[1..] == s[1..] + more;
    if s[0] == QUOTE {
      StringStable(s[1..], more);
    } else if s[0] == LEFT_BRACE || s[0] == LEFT_BRACKET {
      var t := SkipSpace(s[1..]);
      MembersIsSome(t);
      SpaceStable(s[1..], more);
      assert (t + more)[1..] == t[1..] + more;
      if s[0] == LEFT_BRACE && !Opens(t, RIGHT_BRACE) {
        MembersStable(t, more);
      } else if s[0] == LEFT_BRACKET && !Opens(t, RIGHT_BRACKET) {
        ItemsStable(t, more);
      }
    } else {
      ScalarStable(s, more);
    }
  }

  lemma {:induction false} MemberStable(s: Text, more: Text)
    requires ParseMember(s).Ok? && (Opens(ParseMember(s).rest, COMMA) || Opens(ParseMember(s).rest, RIGHT_BRACE))
    ensures ParseMember(s + more) == Ok(ParseMember(s).value, ParseMember(s).rest + more)
    decreases |s|, 2
  {
    hide ParseString, ParseValue;
    var afterKey := ParseString(s[1..]).rest;
    var separator := SkipSpace(afterKey);
    var value := SkipSpace(separator[1..]);
    assert (s + more)[1..] == s[1..] + more && (separator + more)[1..] == separator[1..] + more;
    StringStable(s[1..], more);
    SpaceStable(afterKey, more);
    ValueIsSome(value);
    SpaceStable(separator[1..], more);
    SpaceDelimits(ParseValue(value).rest);
    ValueStable(value, more);
    SpaceStable(ParseValue(value).rest, more);
  }

  lemma ValueIsSome(s: Text)
    ensures ParseValue(s).Ok? ==> s != []
  {
  }

  lemma {:induction false} MembersStable(s: Text, more: Text)
    requires ParseMembers(s).Ok?
    ensures ParseMembers(s + more) == Ok(ParseMembers(s).value, ParseMembers(s).rest + more)
    decreases |s|, 3
  {
    hide ParseMember;
    var rest := ParseMember(s).rest;
    MemberStable(s, more);
    assert (rest + more)[1..] == rest[1..] + more;
    if Opens(rest, COMMA) {
      var next := SkipSpace(rest[1..]);
      MembersIsSome(next);
      SpaceStable(rest[1..], more);
      MembersStable(next, more);
    }
  }

  lemma MembersIsSome(s: Text)
    ensures ParseMembers(s).Ok? ==> s != []
    ensures ParseItems(s).Ok? ==> s != []
  {
  }

  lemma {:induction false} ItemsStable(s: Text, more: Text)
    requires ParseItems(s).Ok?
    ensures ParseItems(s + more) == Ok(ParseItems(s).value, ParseItems(s).rest + more)
    decreases |s|, 2
  {
    hide ParseValue;
    var rest := ParseValue(s).rest;
    var next := SkipSpace(rest);
    SpaceDelimits(rest);
    ValueStable(s, more);
    SpaceStable(rest, more);
    assert (next + more)[1..] == next[1..] + more;
    if Opens(next, COMMA) {
      var others := SkipSpace(next[1..]);
      MembersIsSome(others);
      SpaceStable(next[1..], more);
      ItemsStable(others, more);
    }
  }

  /** An object that is cut short does not parse. */
  lemma ObjectCutShort(s: Text, members: seq<Member>, p: Text)
    requires ParseValue(s) == Ok(Obj(members), []) && Opens(s, LEFT_BRACE) && p < s
    ensures Loads(p).None?
  {
    hide ParseValue;
    assert p + s[|p|..] == s;
    if Loads(p).Some? {
      assert p != [] by { ValueIsSome(SkipSpace(p)); }
      assert SkipSpace(p) == p;
      ParsedIsObject(p);
      ValueStable(p, s[|p|..]);
    }
  }

  lemma ParsedIsObject(p: Text)
    requires Opens(p, LEFT_BRACE) && ParseValue(p).Ok?
    ensures ParseValue(p).value.Obj?
  {
  }
}
