/** The string primitives the source relies on: JavaScript's whitespace class
    (shared by `\s` and `String.prototype.trim`), `trim`, `includes`, ASCII
    lower-casing, and decimal rendering of numbers (template literals and
    `Number.prototype.toString`). */
module Text {

  /** The characters JavaScript's `\s` matches; `trim` removes exactly the same set. */
  predicate IsSpace(c: char)
  {
    || c == ' ' || c == '\t' || c == '\n' || c == '\r'
    || c == '\U{000B}' || c == '\U{000C}' || c == '\U{00A0}' || c == '\U{1680}'
    || ('\U{2000}' <= c <= '\U{200A}')
    || c == '\U{2028}' || c == '\U{2029}' || c == '\U{202F}' || c == '\U{205F}'
    || c == '\U{3000}' || c == '\U{FEFF}'
  }

  predicate IsDigit(c: char) { '0' <= c <= '9' }

  predicate IsAsciiAlnum(c: char) { 'a' <= c <= 'z' || 'A' <= c <= 'Z' || IsDigit(c) }

  predicate AllDigits(s: string) { forall i :: 0 <= i < |s| ==> IsDigit(s[i]) }

  predicate StartsWith(s: string, prefix: string) { |prefix| <= |s| && s[..|prefix|] == prefix }

  predicate EndsWith(s: string, suffix: string) { |suffix| <= |s| && s[|s| - |suffix|..] == suffix }

  /** `s.includes(t)`: `t` occurs in `s` starting at some position. */
  predicate Contains(s: string, t: string)
  {
    exists k :: 0 <= k <= |s| - |t| && StartsWith(s[k..], t)
  }

  /** `s` is empty or made of whitespace only. */
  predicate AllSpace(s: string)
  {
    forall i :: 0 <= i < |s| ==> IsSpace(s[i])
  }

  /** `s` neither begins nor ends with whitespace. */
  predicate NoOuterSpace(s: string)
  {
    s == [] || (!IsSpace(s[0]) && !IsSpace(s[|s| - 1]))
  }

  /** The non-whitespace characters of `s`, in order. */
  function NonSpace(s: string): string
  {
    if s == [] then []
    else if IsSpace(s[0]) then NonSpace(s[1..])
    else [s[0]] + NonSpace(s[1..])
  }

  /** Every whitespace character is a plain space and no two whitespace characters are adjacent. */
  predicate SpacesNormal(s: string)
  {
    && (forall i :: 0 <= i < |s| && IsSpace(s[i]) ==> s[i] == ' ')
    && (forall i :: 0 <= i < |s| - 1 ==> !IsSpace(s[i]) || !IsSpace(s[i + 1]))
  }

  lemma {:induction false} NonSpaceAllSpace(s: string)
    ensures NonSpace(s) == [] <==> AllSpace(s)
  {
    if s != [] {
      NonSpaceAllSpace(s[1..]);
      assert forall i :: 1 <= i < |s| ==> s[i] == s[1..][i - 1];
    }
  }

  lemma {:induction false} NonSpaceAppend(a: string, b: string)
    ensures NonSpace(a + b) == NonSpace(a) + NonSpace(b)
  {
    if a != [] {
      assert (a + b)[0] == a[0];
      assert (a + b)[1..] == a[1..] + b;
      NonSpaceAppend(a[1..], b);
      if !IsSpace(a[0]) {
        calc {
          NonSpace(a + b);
          [a[0]] + NonSpace(a[1..] + b);
          [a[0]] + (NonSpace(a[1..]) + NonSpace(b));
          ([a[0]] + NonSpace(a[1..])) + NonSpace(b);
        }
      }
    } else {
      assert a + b == b;
    }
  }

  /** A character put in front keeps the whitespace normal when it is not
      whitespace, or when it is a space in front of a non-space. */
  lemma SpacesNormalCons(c: char, rest: string)
    requires SpacesNormal(rest)
    requires IsSpace(c) ==> c == ' ' && (rest == [] || !IsSpace(rest[0]))
    ensures SpacesNormal([c] + rest)
  {
    var s := [c] + rest;
    assert forall i :: 1 <= i < |s| ==> s[i] == rest[i - 1];
  }

  lemma SpacesNormalSlice(s: string, lo: int, hi: int)
    requires 0 <= lo <= hi <= |s| && SpacesNormal(s)
    ensures SpacesNormal(s[lo..hi])
  {
    var t := s[lo..hi];
    assert forall i :: 0 <= i < |t| ==> t[i] == s[lo + i];
  }

  /** `s` without its leading whitespace. */
  function TrimStart(s: string): (r: string)
    ensures |r| <= |s|
    ensures |r| == |s| ==> r == s
    ensures |r| < |s| ==> r == s[|s| - |r|..]
    ensures r == [] || !IsSpace(r[0])
    ensures forall i :: 0 <= i < |s| - |r| ==> IsSpace(s[i])
    ensures NonSpace(r) == NonSpace(s)
  {
    if s != [] && IsSpace(s[0]) then
      var r := TrimStart(s[1..]);
      assert s[1..][|s| - 1 - |r|..] == s[|s| - |r|..];
      assert forall i :: 1 <= i < |s| ==> s[i] == s[1..][i - 1];
      r
    else s
  }

  /** `s` without its trailing whitespace. */
  function TrimEnd(s: string): (r: string)
    ensures |r| <= |s| && r == s[..|r|]
    ensures r == [] || !IsSpace(r[|r| - 1])
    ensures forall i :: |r| <= i < |s| ==> IsSpace(s[i])
    ensures NonSpace(r) == NonSpace(s)
  {
    if s != [] && IsSpace(s[|s| - 1]) then
      var r := TrimEnd(s[..|s| - 1]);
      assert s == s[..|s| - 1] + [s[|s| - 1]];
      NonSpaceAppend(s[..|s| - 1], [s[|s| - 1]]);
      r
    else s
  }

  /** `s.trim()`: whitespace removed from both ends. No whitespace is left at
      either end and the non-whitespace text is unchanged; `TrimPadded` says
      which piece of `s` remains. */
  function Trim(s: string): (r: string)
    ensures NoOuterSpace(r)
    ensures NonSpace(r) == NonSpace(s)
    ensures SpacesNormal(s) ==> SpacesNormal(r)
    ensures r == [] <==> AllSpace(s)
  {
    TrimEdges(s);
    TrimNormal(s);
    TrimEmpty(s);
    TrimEnd(TrimStart(s))
  }

  lemma TrimEdges(s: string)
    ensures NoOuterSpace(TrimEnd(TrimStart(s)))
    ensures NonSpace(TrimEnd(TrimStart(s))) == NonSpace(s)
  {
    var front := TrimStart(s);
    var r := TrimEnd(front);
    if r != [] {
      assert r[0] == front[0];
    }
  }

  lemma TrimNormal(s: string)
    ensures SpacesNormal(s) ==> SpacesNormal(TrimEnd(TrimStart(s)))
  {
    if SpacesNormal(s) {
      var front := TrimStart(s);
      SpacesNormalSlice(s, |s| - |front|, |s|);
      SpacesNormalSlice(front, 0, |TrimEnd(front)|);
    }
  }

  lemma TrimEmpty(s: string)
    ensures TrimEnd(TrimStart(s)) == [] <==> AllSpace(s)
  {
    NonSpaceAllSpace(s);
    NonSpaceAllSpace(TrimEnd(TrimStart(s)));
  }

  /** A word with non-space ends is its own `trim`. */
  lemma TrimWord(x: string)
    requires x != [] && NoOuterSpace(x)
    ensures Trim(x) == x
  {
    assert TrimStart(x) == x;
    assert TrimEnd(x) == x;
  }

  /** Whitespace around a word with non-space ends is what `trim` removes. */
  lemma TrimPadded(before: string, x: string, after: string)
    requires AllSpace(before) && AllSpace(after)
    requires x != [] && NoOuterSpace(x)
    ensures Trim(before + x + after) == x
  {
    assert before + x + after == before + (x + after);
    TrimStartPadded(before, x + after);
    TrimEndPadded(x, after);
  }

  lemma {:induction false} TrimStartPadded(before: string, y: string)
    requires AllSpace(before)
    requires y == [] || !IsSpace(y[0])
    ensures TrimStart(before + y) == y
  {
    if before != [] {
      assert (before + y)[0] == before[0];
      assert (before + y)[1..] == before[1..] + y;
      TrimStartPadded(before[1..], y);
    }
  }

  lemma {:induction false} TrimEndPadded(y: string, after: string)
    requires AllSpace(after)
    requires y == [] || !IsSpace(y[|y| - 1])
    ensures TrimEnd(y + after) == y
  {
    if after != [] {
      var s := y + after;
      assert s[|s| - 1] == after[|after| - 1];
      assert s[..|s| - 1] == y + after[..|after| - 1];
      TrimEndPadded(y, after[..|after| - 1]);
    } else {
      assert y + after == y;
    }
  }

  /** The same whitespace on both sides of a word does not change its `trim`. */
  lemma TrimAround(pad: string, x: string)
    requires AllSpace(pad)
    requires x != [] && NoOuterSpace(x)
    ensures Trim(pad + x + pad) == Trim(x)
  {
    TrimPadded(pad, x, pad);
    TrimWord(x);
  }

  /** ASCII part of `toLowerCase`. */
  function ToLowerAscii(s: string): (r: string)
  {
    seq(|s|, i requires 0 <= i < |s| => if 'A' <= s[i] <= 'Z' then (s[i] as int + 32) as char else s[i])
  }

  function DigitChar(d: nat): (c: char)
    requires d < 10
    ensures IsDigit(c) && c as int - '0' as int == d
  {
    ('0' as int + d) as char
  }

  /** Decimal rendering of a non-negative integer, as a template literal or `toString()` gives it. */
  function NatToString(n: nat): (r: string)
    ensures |r| > 0 && AllDigits(r)
    decreases n
  {
    if n < 10 then [DigitChar(n)] else NatToString(n / 10) + [DigitChar(n % 10)]
  }

  /** The number a string of decimal digits denotes. */
  function DigitsValue(s: string): nat
    requires AllDigits(s)
  {
    if s == [] then 0 else DigitsValue(s[..|s| - 1]) * 10 + (s[|s| - 1] as int - '0' as int)
  }

  lemma {:induction false} DigitsValueOfNatToString(n: nat)
    ensures DigitsValue(NatToString(n)) == n
    decreases n
  {
    if n >= 10 {
      var s := NatToString(n);
      assert s[..|s| - 1] == NatToString(n / 10);
      DigitsValueOfNatToString(n / 10);
    }
  }

  lemma NatToStringInjective(m: nat, n: nat)
    requires NatToString(m) == NatToString(n)
    ensures m == n
  {
    DigitsValueOfNatToString(m);
    DigitsValueOfNatToString(n);
  }

  /** Length of the longest prefix of `s` made of decimal digits. */
  function DigitPrefixLength(s: string): (k: nat)
    ensures k <= |s| && AllDigits(s[..k])
    ensures k == |s| || !IsDigit(s[k])
  {
    if s != [] && IsDigit(s[0]) then
      var k := 1 + DigitPrefixLength(s[1..]);
      assert forall i :: 1 <= i < k ==> s[..k][i] == s[1..][..k - 1][i - 1];
      k
    else 0
  }

  lemma {:induction false} DigitPrefixOfDigits(d: string, rest: string)
    requires AllDigits(d)
    requires rest == [] || !IsDigit(rest[0])
    ensures DigitPrefixLength(d + rest) == |d|
  {
    if d != [] {
      assert (d + rest)[1..] == d[1..] + rest;
      DigitPrefixOfDigits(d[1..], rest);
    }
  }
}
