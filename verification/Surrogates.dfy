/** The surrogate repair every piece of reply text goes through
    (backend/app/ai/context.py), and the UTF-16 encoding form it inverts. */
module Surrogates {
  import opened Unicode

  /** RFC 2781, section 2.2: the scalar value a surrogate pair stands for. */
  function Combine(high: CodePoint, low: CodePoint): (c: CodePoint)
    requires IsHigh(high) && IsLow(low)
    ensures 0x10000 <= c
  {
    0x10000 + (high - 0xD800) * 0x400 + (low - 0xDC00)
  }

  /** Pairs become one code point, unpaired surrogates become U+FFFD. */
  function Repair(s: Text): (r: Text) {
    if s == [] then []
    else if IsHigh(s[0]) && |s| > 1 && IsLow(s[1]) then [Combine(s[0], s[1])] + Repair(s[2..])
    else if IsSurrogate(s[0]) then [REPLACEMENT] + Repair(s[1..])
    else [s[0]] + Repair(s[1..])
  }

  method ReplaceLoneSurrogates(text: Text) returns (result: Text)
    ensures result == Repair(text)
  {
    result := [];
    var i := 0;
    assert text[0..] == text;
    while i < |text|
      invariant 0 <= i <= |text|
      invariant result + Repair(text[i..]) == Repair(text)
    {
      RepairAt(text, i);
      ghost var before := result;
      var code := text[i];
      if 0xD800 <= code <= 0xDBFF {
        if i + 1 < |text| && 0xDC00 <= text[i + 1] <= 0xDFFF {
          result := result + [0x10000 + (code - 0xD800) * 0x400 + (text[i + 1] - 0xDC00)];
          i := i + 2;
        } else {
          result := result + [REPLACEMENT];
          i := i + 1;
        }
      } else if 0xDC00 <= code <= 0xDFFF {
        result := result + [REPLACEMENT];
        i := i + 1;
      } else {
        result := result + [text[i]];
        i := i + 1;
      }
      Associate(before, result[|before|..], Repair(text[i..]));
    }
  }

  /** `Repair` in terms of an index into the whole text. */
  lemma RepairAt(text: Text, i: nat)
    requires i < |text|
    ensures Repair(text[i..]) ==
      if IsHigh(text[i]) && i + 1 < |text| && IsLow(text[i + 1])
      then [Combine(text[i], text[i + 1])] + Repair(text[i + 2..])
      else [if IsSurrogate(text[i]) then REPLACEMENT else text[i]] + Repair(text[i + 1..])
  {
    var left := text[i..];
    assert left[1..] == text[i + 1..];
    if i + 1 < |text| {
      assert left[2..] == text[i + 2..];
    }
  }

  /** The result can always be encoded as UTF-8. */
  lemma {:induction false} RepairIsScalar(s: Text)
    ensures Scalar(Repair(s))
  {
    if s == [] {
    } else if IsHigh(s[0]) && |s| > 1 && IsLow(s[1]) {
      RepairIsScalar(s[2..]);
    } else {
      RepairIsScalar(s[1..]);
    }
  }

  lemma {:induction false} RepairKeepsScalar(s: Text)
    requires Scalar(s)
    ensures Repair(s) == s
  {
    if s != [] {
      RepairKeepsScalar(s[1..]);
    }
  }

  lemma RepairIdempotent(s: Text)
    ensures Repair(Repair(s)) == Repair(s)
  {
    RepairIsScalar(s);
    RepairKeepsScalar(Repair(s));
  }

  /** A cut between `a` and `b` tears a surrogate pair apart. */
  predicate SplitsPair(a: Text, b: Text) {
    a != [] && b != [] && IsHigh(a[|a| - 1]) && IsLow(b[0])
  }

  /** Repair may be done piecewise exactly when no pair is torn apart; a torn pair
      costs one extra code point. */
  lemma {:induction false} RepairPiecewise(a: Text, b: Text)
    ensures |Repair(a + b)| == |Repair(a)| + |Repair(b)| - (if SplitsPair(a, b) then 1 else 0)
    ensures Repair(a + b) == Repair(a) + Repair(b) <==> !SplitsPair(a, b)
  {
    if a == [] {
      assert a + b == b;
    } else if IsHigh(a[0]) && |a| > 1 && IsLow(a[1]) {
      assert (a + b)[2..] == a[2..] + b;
      RepairPiecewise(a[2..], b);
      SameHead([Combine(a[0], a[1])], Repair(a[2..]), Repair(b), Repair(a[2..] + b));
    } else if |a| == 1 && SplitsPair(a, b) {
      TornPair(a[0], b[0], b[1..]);
      assert a == [a[0]] && b == [b[0]] + b[1..] && a + b == [a[0], b[0]] + b[1..];
    } else {
      assert (a + b)[1..] == a[1..] + b;
      RepairPiecewise(a[1..], b);
      SameHead([if IsSurrogate(a[0]) then REPLACEMENT else a[0]], Repair(a[1..]), Repair(b), Repair(a[1..] + b));
    }
  }

  lemma SameHead(head: Text, left: Text, right: Text, whole: Text)
    ensures head + whole == head + left + right <==> whole == left + right
  {
    assert (head + whole)[|head|..] == whole && (head + left + right)[|head|..] == left + right;
  }

  lemma TornPair(high: CodePoint, low: CodePoint, rest: Text)
    requires IsHigh(high) && IsLow(low)
    ensures Repair([high]) == [REPLACEMENT] && Repair([low] + rest) == [REPLACEMENT] + Repair(rest)
    ensures Repair([high, low] + rest) == [Combine(high, low)] + Repair(rest)
  {
    assert ([high, low] + rest)[2..] == rest && ([low] + rest)[1..] == rest && [high][1..] == [];
  }

  /** What repair makes of a text stands when the text goes on, except for the place where a
      torn pair is completed. */
  lemma RepairContinues(p: Text, w: Text)
    ensures |Repair(p)| <= |Repair(p + w)|
    ensures forall i :: 0 <= i < |Repair(p)| - 1 ==> Repair(p)[i] == Repair(p + w)[i]
    ensures Repair(p) <= Repair(p + w) <==> !SplitsPair(p, w)
    ensures SplitsPair(p, w) ==> Repair(p) != [] && Repair(p)[|Repair(p)| - 1] == REPLACEMENT != Repair(p + w)[|Repair(p)| - 1]
  {
    hide Repair;
    if SplitsPair(p, w) {
      var n := |p| - 1;
      TornPair(p[n], w[0], w[1..]);
      RepairPiecewise(p[..n], [p[n]]);
      RepairPiecewise(p[..n], [p[n], w[0]] + w[1..]);
      assert p == p[..n] + [p[n]] && p + w == p[..n] + ([p[n], w[0]] + w[1..]);
      assert Repair(p)[|Repair(p)| - 1] == REPLACEMENT != Repair(p + w)[|Repair(p)| - 1];
    } else {
      RepairPiecewise(p, w);
    }
  }

  /** RFC 2781, section 2.1: scalar values as UTF-16 code units. */
  function Utf16(t: Text): (u: Text)
    requires Scalar(t)
  {
    if t == [] then []
    else if t[0] < 0x10000 then [t[0]] + Utf16(t[1..])
    else [0xD800 + (t[0] - 0x10000) / 0x400, 0xDC00 + (t[0] - 0x10000) % 0x400] + Utf16(t[1..])
  }

  /** Code units in which every surrogate is half of a pair. */
  predicate WellFormed(u: Text) {
    u == [] || (
      if IsHigh(u[0]) then |u| > 1 && IsLow(u[1]) && WellFormed(u[2..])
      else !IsLow(u[0]) && u[0] < 0x10000 && WellFormed(u[1..]))
  }

  /** The repair decodes UTF-16: it inverts the encoding form in both directions. */
  lemma {:induction false} RepairDecodesUtf16(t: Text)
    requires Scalar(t)
    ensures WellFormed(Utf16(t)) && Repair(Utf16(t)) == t
  {
    if t != [] {
      RepairDecodesUtf16(t[1..]);
      var u := Utf16(t);
      if t[0] < 0x10000 {
        assert u[1..] == Utf16(t[1..]);
      } else {
        assert u[2..] == Utf16(t[1..]);
        assert Combine(u[0], u[1]) == t[0];
      }
    }
  }

  lemma {:induction false} Utf16EncodesRepair(u: Text)
    requires WellFormed(u)
    ensures Scalar(Repair(u)) && Utf16(Repair(u)) == u
  {
    RepairIsScalar(u);
    if u != [] {
      var r := Repair(u);
      assert Scalar(r[1..]);
      if IsHigh(u[0]) {
        Utf16EncodesRepair(u[2..]);
        assert r[1..] == Repair(u[2..]);
        assert u == [u[0], u[1]] + u[2..];
      } else {
        Utf16EncodesRepair(u[1..]);
        assert r[1..] == Repair(u[1..]);
        assert u == [u[0]] + u[1..];
      }
    }
  }

}
