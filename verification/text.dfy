/** Whitespace splitting of a presentation-format line, as Python's
    `str.split()` performs it, and the decimal reading of a TTL field. */
module Text {
  import opened Outcome

  /** The characters Python's `str.isspace()` accepts, which are the
      separators `str.split()` uses when it is given no separator. */
  predicate IsSpace(c: char) {
    || c == ' '
    || ('\t' <= c <= '\r')
    || ('\U{1C}' <= c <= '\U{1F}')
    || c == '\U{85}'
    || c == '\U{A0}'
    || c == '\U{1680}'
    || ('\U{2000}' <= c <= '\U{200A}')
    || c == '\U{2028}'
    || c == '\U{2029}'
    || c == '\U{202F}'
    || c == '\U{205F}'
    || c == '\U{3000}'
  }

  /** `a` is what is left of `b` once some prefix has been cut off. */
  predicate IsSuffix(a: string, b: string) {
    |a| <= |b| && a == b[|b| - |a|..]
  }

  /** A non-empty run of non-whitespace characters. */
  predicate IsToken(w: string) {
    w != [] && forall i :: 0 <= i < |w| ==> !IsSpace(w[i])
  }

  lemma SuffixTransitive(a: string, b: string, c: string)
    requires IsSuffix(a, b) && IsSuffix(b, c)
    ensures IsSuffix(a, c)
  {
    assert b[|b| - |a|..] == c[|c| - |a|..];
  }

  /** Drops the leading whitespace of `s`. */
  function SkipSpace(s: string): (r: string)
    ensures |r| <= |s|
    ensures r == [] || !IsSpace(r[0])
  {
    if s == [] || !IsSpace(s[0]) then s else SkipSpace(s[1..])
  }

  /** Length of the leading run of non-whitespace characters of `s`. */
  function TokenEnd(s: string): (n: nat)
    ensures n <= |s|
    ensures n == |s| || IsSpace(s[n])
    ensures s != [] && !IsSpace(s[0]) ==> n > 0
  {
    if s == [] || IsSpace(s[0]) then 0 else 1 + TokenEnd(s[1..])
  }

  /** `s.split()`: every maximal run of non-whitespace characters, in order. */
  function Tokens(s: string): (ts: seq<string>)
    decreases |s|
  {
    var t := SkipSpace(s);
    if t == [] then []
    else
      var n := TokenEnd(t);
      [t[..n]] + Tokens(t[n..])
  }

  /** `s.split(None, maxsplit)`: at most `maxsplit` tokens are cut off the
      front, and whatever follows them, leading whitespace dropped and
      everything else kept verbatim, is the last part. */
  function SplitMax(s: string, maxsplit: nat): (parts: seq<string>)
    decreases |s|
  {
    var t := SkipSpace(s);
    if t == [] then []
    else if maxsplit == 0 then [t]
    else
      var n := TokenEnd(t);
      [t[..n]] + SplitMax(t[n..], maxsplit - 1)
  }

  lemma TokensSkipSpace(s: string)
    ensures Tokens(SkipSpace(s)) == Tokens(s)
  {
    var t := SkipSpace(s);
    assert SkipSpace(t) == t;
  }

  /** `SkipSpace` cuts off a prefix of whitespace and keeps the rest. */
  lemma {:induction false} SkipSpaceDropsOnlySpace(s: string)
    ensures IsSuffix(SkipSpace(s), s)
    ensures forall i :: 0 <= i < |s| - |SkipSpace(s)| ==> IsSpace(s[i])
  {
    if s != [] && IsSpace(s[0]) {
      SkipSpaceDropsOnlySpace(s[1..]);
      SuffixTransitive(SkipSpace(s[1..]), s[1..], s);
    }
  }

  /** Everything before `TokenEnd` is non-whitespace. */
  lemma {:induction false} TokenEndSpansToken(s: string)
    ensures forall i :: 0 <= i < TokenEnd(s) ==> !IsSpace(s[i])
  {
    if s != [] && !IsSpace(s[0]) {
      TokenEndSpansToken(s[1..]);
    }
  }

  /** Every part of the full split is a token, and none is lost: the line is
      whitespace exactly when it has no tokens. */
  lemma {:induction false} TokensAreTokens(s: string)
    ensures forall i :: 0 <= i < |Tokens(s)| ==> IsToken(Tokens(s)[i])
    ensures Tokens(s) == [] <==> forall i :: 0 <= i < |s| ==> IsSpace(s[i])
    decreases |s|
  {
    var t := SkipSpace(s);
    SkipSpaceDropsOnlySpace(s);
    if t != [] {
      var n := TokenEnd(t);
      TokenEndSpansToken(t);
      TokensAreTokens(t[n..]);
      assert IsToken(t[..n]);
      assert !IsSpace(s[|s| - |t|]);
    }
  }

  /** Leading whitespace produces no token. */
  lemma TokensSkipLeadingSpace(c: char, s: string)
    requires IsSpace(c)
    ensures Tokens([c] + s) == Tokens(s)
  {
    assert ([c] + s)[1..] == s;
    assert SkipSpace([c] + s) == SkipSpace(s);
  }

  /** A token followed by nothing or by whitespace ends where the
      whitespace starts. */
  lemma {:induction false} TokenEndAfterToken(w: string, rest: string)
    requires IsToken(w)
    requires rest == [] || IsSpace(rest[0])
    ensures TokenEnd(w + rest) == |w|
    decreases |w|
  {
    if |w| > 1 {
      assert (w + rest)[1..] == w[1..] + rest;
      TokenEndAfterToken(w[1..], rest);
    } else {
      assert (w + rest)[1..] == rest;
    }
  }

  /** A token splits into itself. */
  lemma TokensOfToken(w: string)
    requires IsToken(w)
    ensures Tokens(w) == [w]
  {
    TokenEndAfterToken(w, []);
    assert w + [] == w;
    assert w[|w|..] == [];
  }

  /** A token followed by whitespace is the first part of the split, and
      the split goes on after the whitespace. */
  lemma TokensSplitAtSpace(w: string, c: char, s: string)
    requires IsToken(w) && IsSpace(c)
    ensures Tokens(w + [c] + s) == [w] + Tokens(s)
  {
    var line := w + [c] + s;
    assert line == w + ([c] + s);
    TokenEndAfterToken(w, [c] + s);
    assert line[..|w|] == w;
    assert line[|w|..] == [c] + s;
    TokensSkipLeadingSpace(c, s);
  }

  /** When the line has no more tokens than `maxsplit`, the bounded split
      is the full split. */
  lemma {:induction false} SplitMaxShort(s: string, maxsplit: nat)
    requires |Tokens(s)| <= maxsplit
    ensures SplitMax(s, maxsplit) == Tokens(s)
    decreases |s|
  {
    var t := SkipSpace(s);
    if t != [] {
      var n := TokenEnd(t);
      assert n > 0;
      var rest := t[n..];
      assert Tokens(s) == [t[..n]] + Tokens(rest);
      SplitMaxShort(rest, maxsplit - 1);
      assert SplitMax(s, maxsplit) == [t[..n]] + SplitMax(rest, maxsplit - 1);
    }
  }

  /** The last part of a bounded split: a suffix of the line, starting with
      a non-whitespace character, that splits into exactly the tokens the
      bounded split did not cut off. */
  ghost predicate IsRemainder(last: string, s: string, rest: seq<string>) {
    && last != []
    && !IsSpace(last[0])
    && IsSuffix(last, s)
    && Tokens(last) == rest
  }

  /** When the line has more tokens than `maxsplit`, the bounded split
      returns `maxsplit + 1` parts, the first `maxsplit` of them the line's
      first tokens. */
  lemma {:induction false} SplitMaxLongPrefix(s: string, maxsplit: nat)
    requires |Tokens(s)| > maxsplit
    ensures |SplitMax(s, maxsplit)| == maxsplit + 1
    ensures SplitMax(s, maxsplit)[..maxsplit] == Tokens(s)[..maxsplit]
    decreases |s|
  {
    var t := SkipSpace(s);
    assert t != [];
    if maxsplit > 0 {
      var n := TokenEnd(t);
      var rest := t[n..];
      SplitMaxLongPrefix(rest, maxsplit - 1);
      var tail := SplitMax(rest, maxsplit - 1);
      assert Tokens(s) == [t[..n]] + Tokens(rest);
      assert SplitMax(s, maxsplit) == [t[..n]] + tail;
      assert SplitMax(s, maxsplit)[..maxsplit] == [t[..n]] + tail[..maxsplit - 1];
    }
  }

  /** When the line has more tokens than `maxsplit`, the last part of the
      bounded split starts with a non-whitespace character and splits into
      exactly the tokens after the first `maxsplit`. */
  lemma {:induction false} SplitMaxLastTokens(s: string, maxsplit: nat)
    requires |Tokens(s)| > maxsplit
    ensures |SplitMax(s, maxsplit)| == maxsplit + 1
    ensures var last := SplitMax(s, maxsplit)[maxsplit];
      last != [] && !IsSpace(last[0]) && Tokens(last) == Tokens(s)[maxsplit..]
    decreases |s|
  {
    var t := SkipSpace(s);
    assert t != [];
    if maxsplit == 0 {
      TokensSkipSpace(s);
      assert SplitMax(s, maxsplit) == [t];
    } else {
      var n := TokenEnd(t);
      var rest := t[n..];
      SplitMaxLastTokens(rest, maxsplit - 1);
      assert Tokens(s) == [t[..n]] + Tokens(rest);
      assert SplitMax(s, maxsplit) == [t[..n]] + SplitMax(rest, maxsplit - 1);
      assert Tokens(s)[maxsplit..] == Tokens(rest)[maxsplit - 1..];
    }
  }

  /** When the line has more tokens than `maxsplit`, the last part of the
      bounded split is a suffix of the line. */
  lemma {:induction false} SplitMaxLastSuffix(s: string, maxsplit: nat)
    requires |Tokens(s)| > maxsplit
    ensures |SplitMax(s, maxsplit)| == maxsplit + 1
    ensures IsSuffix(SplitMax(s, maxsplit)[maxsplit], s)
    decreases |s|
  {
    var t := SkipSpace(s);
    assert t != [];
    SkipSpaceDropsOnlySpace(s);
    if maxsplit == 0 {
      assert SplitMax(s, maxsplit) == [t];
    } else {
      var n := TokenEnd(t);
      var rest := t[n..];
      SplitMaxLastSuffix(rest, maxsplit - 1);
      assert Tokens(s) == [t[..n]] + Tokens(rest);
      var tail := SplitMax(rest, maxsplit - 1);
      assert SplitMax(s, maxsplit) == [t[..n]] + tail;
      var last := tail[maxsplit - 1];
      assert IsSuffix(rest, t);
      SuffixTransitive(last, rest, t);
      SuffixTransitive(last, t, s);
    }
  }

  /** When the line has more tokens than `maxsplit`, the bounded split
      returns the first `maxsplit` tokens followed by the remainder of the
      line. */
  lemma SplitMaxLong(s: string, maxsplit: nat)
    requires |Tokens(s)| > maxsplit
    ensures |SplitMax(s, maxsplit)| == maxsplit + 1
    ensures SplitMax(s, maxsplit)[..maxsplit] == Tokens(s)[..maxsplit]
    ensures IsRemainder(SplitMax(s, maxsplit)[maxsplit], s, Tokens(s)[maxsplit..])
  {
    SplitMaxLongPrefix(s, maxsplit);
    SplitMaxLastTokens(s, maxsplit);
    SplitMaxLastSuffix(s, maxsplit);
  }

  predicate IsDigit(c: char) {
    '0' <= c <= '9'
  }

  /** A non-empty string of ASCII decimal digits. */
  predicate IsDecimal(s: string) {
    s != [] && forall i :: 0 <= i < |s| ==> IsDigit(s[i])
  }

  function DigitValue(c: char): (d: nat)
    requires IsDigit(c)
  {
    (c as int) - ('0' as int)
  }

  function DigitChar(d: nat): (c: char)
    requires d < 10
    ensures IsDigit(c) && DigitValue(c) == d
  {
    (('0' as int) + d) as char
  }

  /** The number a string of decimal digits denotes, most significant first. */
  function DecimalValue(s: string): (n: nat)
    requires forall i :: 0 <= i < |s| ==> IsDigit(s[i])
  {
    if s == [] then 0 else 10 * DecimalValue(s[..|s| - 1]) + DigitValue(s[|s| - 1])
  }

  /** Reads a TTL field: a string of decimal digits gives its value, anything
      else is a failure. */
  function ParseDecimal(s: string): (r: Option<nat>)
    ensures r.Some? <==> IsDecimal(s)
  {
    if IsDecimal(s) then Some(DecimalValue(s)) else None
  }

  /** The shortest decimal rendering of `n`. */
  function DecimalString(n: nat): (s: string)
    ensures IsDecimal(s)
  {
    if n < 10 then [DigitChar(n)] else DecimalString(n / 10) + [DigitChar(n % 10)]
  }

  /** Reading back the decimal rendering of a number gives the number. */
  lemma {:induction false} ParseDecimalRoundTrip(n: nat)
    ensures ParseDecimal(DecimalString(n)) == Some(n)
  {
    var s := DecimalString(n);
    if n < 10 {
      assert s[..0] == [];
      assert DecimalValue(s) == n;
    } else {
      ParseDecimalRoundTrip(n / 10);
      assert s[..|s| - 1] == DecimalString(n / 10);
      assert DecimalValue(s) == 10 * (n / 10) + n % 10;
    }
  }

  /** A zero prefixed to a decimal string does not change its value, so the
      reading is not injective. */
  lemma {:induction false} LeadingZeroIgnored(s: string)
    requires IsDecimal(s)
    ensures ParseDecimal("0" + s) == ParseDecimal(s)
    decreases |s|
  {
    var z := "0" + s;
    if |s| > 1 {
      var init := s[..|s| - 1];
      LeadingZeroIgnored(init);
      assert z[..|z| - 1] == "0" + init;
    } else {
      assert z[..|z| - 1] == "0";
      assert DecimalValue("0") == 0 by {
        assert "0"[..0] == [];
      }
    }
  }
}
