/** `json.loads` and `JSON.parse`: the JSON grammar of RFC 8259 with Python's
    extras (`NaN`, `Infinity`, the digit limit on integers). */
module Json {
  import opened Unicode
  import opened Wrappers
  import opened Surrogates

  datatype Json =
    | Null
    | Bool(b: bool)
    | Int(n: int)
    | Float(literal: Text)
    | Str(text: Text)
    | Arr(items: seq<Json>)
    | Obj(members: seq<Member>)

  datatype Member = Member(key: Text, value: Json)

  datatype Parse<+T> = Ok(value: T, rest: Text) | Fail

  /** `data.get(key)` on the parsed dictionary: the last member of that name wins. */
  function Get(members: seq<Member>, key: Text): Option<Json> {
    if members == [] then None
    else
      var last := members[|members| - 1];
      if last.key == key then Some(last.value) else Get(members[..|members| - 1], key)
  }

  // -- Strings: RFC 8259, section 7 ------------------------------------------------

  function HexDigit(c: CodePoint): (d: Option<int>)
    ensures d.Some? ==> 0 <= d.value < 16
  {
    if 0x30 <= c <= 0x39 then Some(c - 0x30)
    else if 0x41 <= c <= 0x46 then Some(c - 0x41 + 10)
    else if 0x61 <= c <= 0x66 then Some(c - 0x61 + 10)
    else None
  }

  predicate IsHex4(s: Text) {
    |s| == 4 && HexDigit(s[0]).Some? && HexDigit(s[1]).Some? && HexDigit(s[2]).Some? && HexDigit(s[3]).Some?
  }

  function Hex4(s: Text): (v: int)
    requires IsHex4(s)
    ensures 0 <= v < 0x10000
  {
    HexDigit(s[0]).value * 0x1000 + HexDigit(s[1]).value * 0x100 + HexDigit(s[2]).value * 0x10 + HexDigit(s[3]).value
  }

  function SimpleEscape(c: CodePoint): Option<CodePoint> {
    if c == QUOTE || c == BACKSLASH || c == 0x2F then Some(c)
    else if c == 0x62 then Some(0x08)
    else if c == 0x66 then Some(0x0C)
    else if c == 0x6E then Some(0x0A)
    else if c == 0x72 then Some(0x0D)
    else if c == 0x74 then Some(0x09)
    else None
  }

  /** A `\uXXXX` escape opens `s`. */
  predicate UnicodeEscape(s: Text) {
    |s| >= 6 && s[0] == BACKSLASH && s[1] == LOWER_U && IsHex4(s[2..6])
  }

  /** One unit of a string body: the code point it stands for and its length. */
  datatype Unit = Unit(c: CodePoint, len: nat) | BadUnit

  /** The unit that opens a string body. Two `\uXXXX` escapes that form a surrogate
      pair are one unit; a surrogate escape on its own stands for itself. */
  function FirstUnit(s: Text): (u: Unit)
    requires s != []
    ensures u.Unit? ==> 1 <= u.len <= |s|
  {
    if s[0] == BACKSLASH then
      if UnicodeEscape(s) then
        var v := Hex4(s[2..6]);
        if IsHigh(v) && UnicodeEscape(s[6..]) && IsLow(Hex4(s[6..][2..6]))
        then Unit(Combine(v, Hex4(s[6..][2..6])), 12)
        else Unit(v, 6)
      else if |s| >= 2 && SimpleEscape(s[1]).Some? then Unit(SimpleEscape(s[1]).value, 2)
      else BadUnit
    else if s[0] == QUOTE || s[0] < 0x20 then BadUnit
    else Unit(s[0], 1)
  }

  /** Decodes a string body up to its closing quote. */
  function ParseString(s: Text): (r: Parse<Text>)
    ensures r.Ok? ==> |r.rest| < |s|
    decreases |s|
  {
    if s == [] then Fail
    else if s[0] == QUOTE then Ok([], s[1..])
    else match FirstUnit(s)
      case BadUnit => Fail
      case Unit(c, n) =>
        match ParseString(s[n..])
        case Fail => Fail
        case Ok(v, rest) => Ok([c] + v, rest)
  }

  // -- Numbers and literals --------------------------------------------------------

  const NULL: Text := [0x6E, 0x75, 0x6C, 0x6C]
  const TRUE: Text := [0x74, 0x72, 0x75, 0x65]
  const FALSE: Text := [0x66, 0x61, 0x6C, 0x73, 0x65]
  const NAN: Text := [0x4E, 0x61, 0x4E]
  const INFINITY: Text := [0x49, 0x6E, 0x66, 0x69, 0x6E, 0x69, 0x74, 0x79]
  const MINUS_INFINITY: Text := [0x2D] + INFINITY

  /** Python refuses to convert longer digit strings to an integer. */
  const MAX_INT_DIGITS := 4300

  predicate IsDigit(c: CodePoint) { 0x30 <= c <= 0x39 }

  function DigitCount(s: Text): (n: nat)
    ensures n <= |s|
    ensures forall i :: 0 <= i < n ==> IsDigit(s[i])
    ensures n < |s| ==> !IsDigit(s[n])
  {
    if s == [] || !IsDigit(s[0]) then 0 else 1 + DigitCount(s[1..])
  }

  function DecimalValue(digits: Text): nat
    requires forall i :: 0 <= i < |digits| ==> IsDigit(digits[i])
  {
    if digits == [] then 0
    else
      var last := digits[|digits| - 1];
      assert IsDigit(last);
      10 * DecimalValue(digits[..|digits| - 1]) + (last as int - 0x30)
  }

  function FractionLength(s: Text): (n: nat)
    ensures n <= |s|
  {
    if |s| >= 2 && s[0] == 0x2E && IsDigit(s[1]) then 1 + DigitCount(s[1..]) else 0
  }

  function ExponentLength(s: Text): (n: nat)
    ensures n <= |s|
  {
    if s == [] || (s[0] != 0x65 && s[0] != 0x45) then 0
    else
      var sign := if |s| >= 2 && (s[1] == 0x2B || s[1] == 0x2D) then 2 else 1;
      var digits := DigitCount(s[sign..]);
      if digits == 0 then 0 else sign + digits
  }

  /** The digits before any fraction: a leading zero stands alone. */
  function WholeLength(d: Text): (n: nat)
    requires d != [] && IsDigit(d[0])
    ensures 1 <= n <= |d|
    ensures forall i :: 0 <= i < n ==> IsDigit(d[i])
  {
    if d[0] == 0x30 then 1 else DigitCount(d)
  }

  function ParseUnsigned(d: Text, negative: bool): (r: Parse<Json>)
    requires d != [] && IsDigit(d[0])
    ensures r.Ok? ==> |r.rest| < |d| && (r.value.Int? || r.value.Float?)
  {
    var whole := WholeLength(d);
    var tail := d[whole..];
    var fraction := FractionLength(tail);
    var extra := fraction + ExponentLength(tail[fraction..]);
    if extra > 0 then
      var literal: Text := (if negative then [0x2D] else []) + d[..whole + extra];
      Ok(Float(literal), tail[extra..])
    else if whole > MAX_INT_DIGITS then Fail
    else
      var magnitude: int := DecimalValue(d[..whole]);
      Ok(Int(if negative then -magnitude else magnitude), tail)
  }

  function ParseNumber(s: Text): (r: Parse<Json>)
    requires s != []
    ensures r.Ok? ==> |r.rest| < |s| && (r.value.Int? || r.value.Float?)
  {
    var negative := s[0] == 0x2D;
    var d := if negative then s[1..] else s;
    if d != [] && IsDigit(d[0]) then ParseUnsigned(d, negative) else Fail
  }

  /** A value that is neither a string nor a container. */
  function ParseScalar(s: Text): (r: Parse<Json>)
    requires s != []
    ensures r.Ok? ==> |r.rest| < |s|
    ensures r.Ok? ==> !r.value.Str? && !r.value.Arr? && !r.value.Obj?
  {
    if NULL <= s then Ok(Null, s[4..])
    else if TRUE <= s then Ok(Bool(true), s[4..])
    else if FALSE <= s then Ok(Bool(false), s[5..])
    else if NAN <= s then Ok(Float(NAN), s[3..])
    else if INFINITY <= s then Ok(Float(INFINITY), s[8..])
    else if MINUS_INFINITY <= s then Ok(Float(MINUS_INFINITY), s[9..])
    else ParseNumber(s)
  }

  // -- Values ----------------------------------------------------------------------

  predicate IsJsonSpace(c: CodePoint) { c == 0x20 || c == 0x09 || c == 0x0A || c == 0x0D }

  function SkipSpace(s: Text): (r: Text)
    ensures |r| <= |s|
    ensures r != [] ==> !IsJsonSpace(r[0])
  {
    if s == [] || !IsJsonSpace(s[0]) then s else SkipSpace(s[1..])
  }

  predicate Opens(s: Text, c: CodePoint) { s != [] && s[0] == c }

  function ParseValue(s: Text): (r: Parse<Json>)
    ensures r.Ok? ==> |r.rest| < |s|
    decreases |s|, 1
  {
    if s == [] then Fail
    else if s[0] == QUOTE then
      match ParseString(s[1..])
      case Fail => Fail
      case Ok(v, rest) => Ok(Str(v), rest)
    else if s[0] == LEFT_BRACE then
      var t := SkipSpace(s[1..]);
      if Opens(t, RIGHT_BRACE) then Ok(Obj([]), t[1..])
      else match ParseMembers(t)
        case Fail => Fail
        case Ok(members, rest) => Ok(Obj(members), rest)
    else if s[0] == LEFT_BRACKET then
      var t := SkipSpace(s[1..]);
      if Opens(t, RIGHT_BRACKET) then Ok(Arr([]), t[1..])
      else match ParseItems(t)
        case Fail => Fail
        case Ok(items, rest) => Ok(Arr(items), rest)
    else ParseScalar(s)
  }

  /** One member, and the text after the white space that follows it. */
  function ParseMember(s: Text): (r: Parse<Member>)
    ensures r.Ok? ==> |r.rest| < |s|
    decreases |s|, 2
  {
    if !Opens(s, QUOTE) then Fail
    else match ParseString(s[1..])
      case Fail => Fail
      case Ok(key, afterKey) =>
        var separator := SkipSpace(afterKey);
        if !Opens(separator, COLON) then Fail
        else match ParseValue(SkipSpace(separator[1..]))
          case Fail => Fail
          case Ok(value, rest) => Ok(Member(key, value), SkipSpace(rest))
  }

  /** The members of an object, from its first key to its closing brace. */
  function ParseMembers(s: Text): (r: Parse<seq<Member>>)
    ensures r.Ok? ==> |r.rest| < |s| && r.value != []
    decreases |s|, 3
  {
    match ParseMember(s)
    case Fail => Fail
    case Ok(member, rest) =>
      if Opens(rest, RIGHT_BRACE) then Ok([member], rest[1..])
      else if Opens(rest, COMMA) then
        match ParseMembers(SkipSpace(rest[1..]))
        case Fail => Fail
        case Ok(others, end) => Ok([member] + others, end)
      else Fail
  }

  /** The items of an array, from the first to its closing bracket. */
  function ParseItems(s: Text): (r: Parse<seq<Json>>)
    ensures r.Ok? ==> |r.rest| < |s| && r.value != []
    decreases |s|, 2
  {
    match ParseValue(s)
    case Fail => Fail
    case Ok(item, rest) =>
      var next := SkipSpace(rest);
      if Opens(next, RIGHT_BRACKET) then Ok([item], next[1..])
      else if Opens(next, COMMA) then
        match ParseItems(SkipSpace(next[1..]))
        case Fail => Fail
        case Ok(others, end) => Ok([item] + others, end)
      else Fail
  }

  /** `json.loads(document)`, `None` for the `ValueError` it raises. */
  function Loads(document: Text): Option<Json> {
    match ParseValue(SkipSpace(document))
    case Fail => None
    case Ok(value, rest) => if SkipSpace(rest) == [] then Some(value) else None
  }

}
