/** Text helpers with JavaScript semantics: `String.prototype.trim` and digit-only numerals. */
module Text {
  import Seqs

  /** The characters `trim()` removes: ECMAScript WhiteSpace and LineTerminator code points. */
  predicate IsSpace(c: char) {
    || c == '\t' || c == '\n' || c == '\U{000B}' || c == '\U{000C}' || c == '\r'
    || c == ' ' || c == '\U{00A0}' || c == '\U{1680}' || ('\U{2000}' <= c <= '\U{200A}')
    || c == '\U{2028}' || c == '\U{2029}' || c == '\U{202F}' || c == '\U{205F}'
    || c == '\U{3000}' || c == '\U{FEFF}'
  }

  predicate AllSpace(s: string) {
    forall i :: 0 <= i < |s| ==> IsSpace(s[i])
  }

  /** Whitespace-only text is exactly whitespace-only on both sides of any cut. */
  lemma AllSpaceSplit(s: string, a: nat)
    requires a <= |s|
    ensures AllSpace(s) <==> AllSpace(s[..a]) && AllSpace(s[a..])
  {
    assert forall i :: a <= i < |s| ==> s[i] == s[a..][i - a];
  }

  /** The number of whitespace characters at the start of `s`. */
  function LeadingSpaces(s: string): (n: nat)
    ensures n <= |s|
    ensures AllSpace(s[..n])
    ensures n < |s| ==> !IsSpace(s[n])
    decreases |s|
  {
    if |s| > 0 && IsSpace(s[0]) then 1 + LeadingSpaces(s[1..]) else 0
  }

  /** The number of whitespace characters at the end of `s`. */
  function TrailingSpaces(s: string): (n: nat)
    ensures n <= |s|
    ensures AllSpace(s[|s| - n..])
    ensures n < |s| ==> !IsSpace(s[|s| - n - 1])
    decreases |s|
  {
    if |s| > 0 && IsSpace(s[|s| - 1]) then
      var init := s[..|s| - 1];
      var m := TrailingSpaces(init);
      var tail := s[|s| - 1 - m..];
      assert tail[..m] == init[|init| - m..] && tail[m..] == [s[|s| - 1]];
      AllSpaceSplit(tail, m);
      assert m + 1 < |s| ==> s[|s| - (m + 1) - 1] == init[|init| - m - 1];
      1 + m
    else 0
  }

  /**
    `s.trim()`: `s` without its leading and trailing whitespace. The result is cut out
    of `s` right after the leading whitespace, and only whitespace follows it.
  */
  function Trim(s: string): (r: string)
    ensures r == "" <==> AllSpace(s)
    ensures |r| > 0 ==> !IsSpace(r[0]) && !IsSpace(r[|r| - 1])
    ensures LeadingSpaces(s) + |r| <= |s| && r == s[LeadingSpaces(s)..LeadingSpaces(s) + |r|]
    ensures AllSpace(s[LeadingSpaces(s) + |r|..])
  {
    var a := LeadingSpaces(s);
    var t := s[a..];
    var b := TrailingSpaces(t);
    var r := t[..|t| - b];
    assert r == s[a..a + |r|];
    assert s[a + |r|..] == t[|t| - b..];
    AllSpaceSplit(s, a);
    assert |r| == 0 ==> t[|t| - b..] == t;
    r
  }

  /** Trimming removes exactly the whitespace padding around a core that neither starts nor ends with whitespace. */
  lemma TrimOfPadded(pre: string, core: string, post: string)
    requires AllSpace(pre) && AllSpace(post)
    requires |core| > 0 ==> !IsSpace(core[0]) && !IsSpace(core[|core| - 1])
    ensures Trim(pre + core + post) == core
  {
    var s := pre + core + post;
    if |core| > 0 {
      LeadingOfPadded(pre, core + post);
      assert s == pre + (core + post);
      assert LeadingSpaces(s) == |pre|;
      var t := s[|pre|..];
      assert t == core + post;
      TrailingOfPadded(core, post);
    } else {
      assert AllSpace(s);
    }
  }

  lemma {:induction false} LeadingOfPadded(pre: string, rest: string)
    requires AllSpace(pre)
    requires |rest| > 0 ==> !IsSpace(rest[0])
    ensures LeadingSpaces(pre + rest) == |pre|
    decreases |pre|
  {
    if |pre| > 0 {
      assert (pre + rest)[1..] == pre[1..] + rest;
      LeadingOfPadded(pre[1..], rest);
    } else {
      assert pre + rest == rest;
    }
  }

  lemma {:induction false} TrailingOfPadded(rest: string, post: string)
    requires AllSpace(post)
    requires |rest| > 0 ==> !IsSpace(rest[|rest| - 1])
    ensures TrailingSpaces(rest + post) == |post|
    decreases |post|
  {
    if |post| > 0 {
      assert (rest + post)[..|rest + post| - 1] == rest + post[..|post| - 1];
      TrailingOfPadded(rest, post[..|post| - 1]);
    } else {
      assert rest + post == rest;
    }
  }

  /** Text that starts with a non-space character keeps that character first when trimmed. */
  lemma TrimKeepsFirst(s: string)
    requires |s| > 0 && !IsSpace(s[0])
    ensures |Trim(s)| > 0 && Trim(s)[0] == s[0]
  {
    assert LeadingSpaces(s) == 0;
  }

  /** Trimming twice is trimming once. */
  lemma TrimIdempotent(s: string)
    ensures Trim(Trim(s)) == Trim(s)
  {
    var r := Trim(s);
    var e: string := [];
    assert AllSpace(e);
    assert e + r + e == r;
    TrimOfPadded(e, r, e);
  }

  predicate IsDigit(c: char) {
    '0' <= c <= '9'
  }

  predicate AllDigits(s: string) {
    forall i :: 0 <= i < |s| ==> IsDigit(s[i])
  }

  /** `s.replace(/[^\d]/g, "")`: the decimal digits of `s`, in order. */
  function KeepDigits(s: string): (r: string)
    ensures AllDigits(r)
    ensures |r| <= |s|
  {
    Seqs.Filter(s, IsDigit)
  }

  /** Keeping digits works piecewise: the digits of a concatenation are the digits of each part. */
  lemma KeepDigitsAppend(a: string, b: string)
    ensures KeepDigits(a + b) == KeepDigits(a) + KeepDigits(b)
  {
    Seqs.FilterAppend(a, b, IsDigit);
  }

  /** A single character is kept exactly when it is a digit. */
  lemma KeepDigitsChar(c: char)
    ensures KeepDigits([c]) == if IsDigit(c) then [c] else []
  {
  }

  /** Digit text is kept whole; text without digits is emptied. */
  lemma KeepDigitsCases(s: string)
    ensures AllDigits(s) ==> KeepDigits(s) == s
    ensures (forall i :: 0 <= i < |s| ==> !IsDigit(s[i])) ==> KeepDigits(s) == ""
  {
    if AllDigits(s) {
      Seqs.FilterKeepsAll(s, IsDigit);
    }
    var ds := KeepDigits(s);
    if |ds| > 0 {
      assert ds[0] in s && IsDigit(ds[0]);
    }
  }

  /** The value of a decimal numeral (`Number` of a digit string; the empty numeral is 0). */
  function DigitsValue(ds: string): (n: nat)
    requires AllDigits(ds)
    decreases |ds|
  {
    if |ds| == 0 then 0
    else DigitsValue(ds[..|ds| - 1]) * 10 + (ds[|ds| - 1] as int - '0' as int)
  }

  /** The shortest decimal numeral of `n`. */
  function Numeral(n: nat): (ds: string)
    ensures |ds| > 0 && AllDigits(ds)
  {
    var d := (n % 10 + '0' as int) as char;
    if n < 10 then [d] else Numeral(n / 10) + [d]
  }

  /** Reading back the numeral of `n` gives `n`. */
  lemma {:induction false} NumeralRoundTrip(n: nat)
    ensures DigitsValue(Numeral(n)) == n
  {
    var ds := Numeral(n);
    if n >= 10 {
      NumeralRoundTrip(n / 10);
      assert ds[..|ds| - 1] == Numeral(n / 10);
    }
  }
}
