/** Text as Python sees it: a sequence of code points, surrogates included.
    (Dafny's own `char` has no surrogates, so code points are numbers here.) */
module Unicode {

  type CodePoint = c: int | 0 <= c < 0x110000
  type Text = seq<CodePoint>

  const QUOTE: CodePoint := 0x22
  const BACKSLASH: CodePoint := 0x5C
  const NEWLINE: CodePoint := 0x0A
  const CARRIAGE_RETURN: CodePoint := 0x0D
  const SPACE: CodePoint := 0x20
  const COLON: CodePoint := 0x3A
  const COMMA: CodePoint := 0x2C
  const LEFT_BRACE: CodePoint := 0x7B
  const RIGHT_BRACE: CodePoint := 0x7D
  const LEFT_BRACKET: CodePoint := 0x5B
  const RIGHT_BRACKET: CodePoint := 0x5D
  const LOWER_U: CodePoint := 0x75
  const REPLACEMENT: CodePoint := 0xFFFD

  predicate IsHigh(c: int) { 0xD800 <= c <= 0xDBFF }

  predicate IsLow(c: int) { 0xDC00 <= c <= 0xDFFF }

  predicate IsSurrogate(c: int) { 0xD800 <= c <= 0xDFFF }

  /** Text that can be encoded as UTF-8: no surrogate code point in it. */
  predicate Scalar(t: Text) { forall i :: 0 <= i < |t| ==> !IsSurrogate(t[i]) }

  /** No high surrogate stands in the text as a code point of its own. */
  predicate NoHigh(t: Text) { forall i :: 0 <= i < |t| ==> !IsHigh(t[i]) }

  /** Python's `str.isspace`, one code point at a time. */
  predicate IsSpace(c: CodePoint) {
    || 0x09 <= c <= 0x0D || 0x1C <= c <= 0x20 || c == 0x85 || c == 0xA0 || c == 0x1680
    || 0x2000 <= c <= 0x200A || c == 0x2028 || c == 0x2029 || c == 0x202F || c == 0x205F || c == 0x3000
  }

  /** What JavaScript's `String.prototype.trim` removes. */
  predicate IsJsSpace(c: CodePoint) {
    || 0x09 <= c <= 0x0D || c == 0x20 || c == 0xA0 || c == 0x1680
    || 0x2000 <= c <= 0x200A || c == 0x2028 || c == 0x2029 || c == 0x202F || c == 0x205F || c == 0x3000
    || c == 0xFEFF
  }

  /** `str.lstrip()`. */
  function LStrip(s: Text): Text {
    if s == [] || !IsSpace(s[0]) then s else LStrip(s[1..])
  }

  /** Whether `str.strip()` leaves nothing. */
  predicate Blank(s: Text) { forall i :: 0 <= i < |s| ==> IsSpace(s[i]) }

  /** `pattern` stands in `s` at index `k`. */
  predicate StandsAt(s: Text, pattern: Text, k: nat) {
    k + |pattern| <= |s| && s[k..k + |pattern|] == pattern
  }

  /** The index `str.find(pattern, from)` answers, `-1` when there is none. */
  function Find(s: Text, pattern: Text, from: nat): (k: int)
    ensures k == -1 || (from <= k && StandsAt(s, pattern, k))
    ensures forall j: nat :: from <= j && (k == -1 || j < k) ==> !StandsAt(s, pattern, j)
    decreases |s| - from
  {
    if from + |pattern| > |s| then -1
    else if s[from..from + |pattern|] == pattern then from
    else if from == |s| then -1
    else Find(s, pattern, from + 1)
  }

  function Concat(pieces: seq<Text>): Text {
    if pieces == [] then [] else pieces[0] + Concat(pieces[1..])
  }

  lemma Associate<T>(a: seq<T>, b: seq<T>, c: seq<T>)
    ensures a + (b + c) == (a + b) + c
  {
  }

  lemma {:induction false} ConcatAppend(a: seq<Text>, b: seq<Text>)
    ensures Concat(a + b) == Concat(a) + Concat(b)
  {
    if a == [] {
      assert a + b == b;
      assert Concat(a) + Concat(b) == Concat(b);
    } else {
      ConcatAppend(a[1..], b);
      ConcatNext(a + b);
      ConcatNext(a);
      hide Concat;
      assert (a + b)[1..] == a[1..] + b;
      Associate(a[0], Concat(a[1..]), Concat(b));
    }
  }

  lemma ConcatNext(a: seq<Text>)
    requires a != []
    ensures Concat(a) == a[0] + Concat(a[1..])
  {
  }

  lemma LStripStable(s: Text, more: Text)
    requires LStrip(s) != []
    ensures LStrip(s + more) == LStrip(s) + more
  {
    if s != [] && IsSpace(s[0]) {
      assert (s + more)[1..] == s[1..] + more;
      LStripStable(s[1..], more);
    }
  }

}
