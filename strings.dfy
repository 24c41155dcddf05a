/**
 * The parts of Rust's `str` API that the modelled code relies on: `trim`,
 * `split_whitespace`, `lines`, ASCII case folding, decimal integers (`to_string`
 * and `parse`) and the lexicographic order of `String`'s `cmp`.
 */
module Strings {
  import opened Wrappers

  /** `char::is_whitespace`: the characters with the Unicode White_Space property. */
  predicate IsWhitespace(c: char) {
    ('\t' <= c <= '\r') || c == ' ' || c == '\U{85}' || c == '\U{A0}' || c == '\U{1680}'
    || ('\U{2000}' <= c <= '\U{200A}') || c == '\U{2028}' || c == '\U{2029}'
    || c == '\U{202F}' || c == '\U{205F}' || c == '\U{3000}'
  }

  predicate AllWhitespace(s: string) {
    forall i :: 0 <= i < |s| ==> IsWhitespace(s[i])
  }

  predicate NoWhitespace(s: string) {
    forall i :: 0 <= i < |s| ==> !IsWhitespace(s[i])
  }

  /** A non-empty run of non-whitespace characters: what `split_whitespace` yields. */
  predicate IsToken(s: string) {
    s != [] && NoWhitespace(s)
  }

  /** `trim_start`: drops the leading whitespace and nothing else. */
  function TrimStart(s: string): (r: string)
    ensures |r| <= |s| && r == s[|s| - |r|..]
    ensures AllWhitespace(s[..|s| - |r|])
    ensures r == [] || !IsWhitespace(r[0])
  {
    if s != [] && IsWhitespace(s[0]) then
      var r := TrimStart(s[1..]);
      TrimStartStep(s, r);
      r
    else s
  }

  /** One whitespace character more in front trims to the same rest. */
  lemma TrimStartStep(s: string, r: string)
    requires s != [] && IsWhitespace(s[0])
    requires |r| <= |s[1..]| && r == s[1..][|s[1..]| - |r|..] && AllWhitespace(s[1..][..|s[1..]| - |r|])
    ensures |r| <= |s| && r == s[|s| - |r|..] && AllWhitespace(s[..|s| - |r|])
  {
    assert s[..|s| - |r|] == [s[0]] + s[1..][..|s| - 1 - |r|];
    AllWhitespaceCons(s[0], s[1..][..|s| - 1 - |r|]);
  }

  lemma AllWhitespaceCons(c: char, t: string)
    requires IsWhitespace(c) && AllWhitespace(t)
    ensures AllWhitespace([c] + t)
  {
    forall i | 0 <= i < |[c] + t|
      ensures IsWhitespace(([c] + t)[i])
    {
      if i > 0 {
        assert ([c] + t)[i] == t[i - 1];
      }
    }
  }

  lemma AllWhitespaceSnoc(t: string, c: char)
    requires AllWhitespace(t) && IsWhitespace(c)
    ensures AllWhitespace(t + [c])
  {
    forall i | 0 <= i < |t + [c]|
      ensures IsWhitespace((t + [c])[i])
    {
      if i < |t| {
        assert (t + [c])[i] == t[i];
      }
    }
  }

  /** `trim_end`: drops the trailing whitespace and nothing else. */
  function TrimEnd(s: string): (r: string)
    ensures |r| <= |s| && r == s[..|r|]
    ensures AllWhitespace(s[|r|..])
    ensures r == [] || !IsWhitespace(r[|r| - 1])
  {
    if s != [] && IsWhitespace(s[|s| - 1]) then
      var r := TrimEnd(s[..|s| - 1]);
      assert s[|r|..] == s[..|s| - 1][|r|..] + [s[|s| - 1]];
      AllWhitespaceSnoc(s[..|s| - 1][|r|..], s[|s| - 1]);
      r
    else s
  }

  /** Neither the first nor the last character is whitespace. */
  predicate NoWhitespaceEnds(s: string) {
    s == [] || (!IsWhitespace(s[0]) && !IsWhitespace(s[|s| - 1]))
  }

  /** `trim`: the slice between the leading and the trailing whitespace. */
  function Trim(s: string): (r: string)
    ensures |r| <= |s|
    ensures NoWhitespaceEnds(r)
    ensures r == [] <==> AllWhitespace(s)
  {
    var t := TrimStart(s);
    TrimParts(s, t, TrimEnd(t));
    TrimEnd(t)
  }

  /** Trimming the front and then the back leaves no whitespace at either end, and nothing only when all was whitespace. */
  lemma TrimParts(s: string, t: string, r: string)
    requires |t| <= |s| && t == s[|s| - |t|..] && AllWhitespace(s[..|s| - |t|]) && (t == [] || !IsWhitespace(t[0]))
    requires |r| <= |t| && r == t[..|r|] && AllWhitespace(t[|r|..]) && (r == [] || !IsWhitespace(r[|r| - 1]))
    ensures |r| <= |s|
    ensures NoWhitespaceEnds(r)
    ensures r == [] <==> AllWhitespace(s)
  {
    if r != [] {
      assert r[0] == t[0];
      assert !AllWhitespace(s) by {
        assert s[|s| - |t|] == t[0];
      }
    } else {
      assert t == [];
      assert s[..|s| - |t|] == s;
    }
  }

  /** `s.trim().is_empty()`: by the contract of `Trim`, exactly when every character is whitespace. */
  predicate IsBlank(s: string) {
    AllWhitespace(s)
  }

  /** A string already without whitespace at either end is its own trim. */
  lemma TrimOfTrimmed(s: string)
    requires NoWhitespaceEnds(s)
    ensures Trim(s) == s
  {
  }

  lemma TrimIdempotent(s: string)
    ensures Trim(Trim(s)) == Trim(s)
  {
    TrimOfTrimmed(Trim(s));
  }

  lemma {:induction false} TrimStartSkipsWhitespace(w: string, s: string)
    requires AllWhitespace(w)
    ensures TrimStart(w + s) == TrimStart(s)
  {
    if w != [] {
      assert (w + s)[0] == w[0] && IsWhitespace(w[0]);
      assert (w + s)[1..] == w[1..] + s;
      TrimStartSkipsWhitespace(w[1..], s);
    } else {
      assert w + s == s;
    }
  }

  /** Length of the longest prefix without whitespace. */
  function TokenLen(s: string): (n: nat)
    ensures n <= |s|
    ensures NoWhitespace(s[..n])
    ensures n < |s| ==> IsWhitespace(s[n])
  {
    if s == [] || IsWhitespace(s[0]) then 0 else 1 + TokenLen(s[1..])
  }

  /** `split_whitespace`: the maximal runs of non-whitespace characters, in order. */
  function SplitWhitespace(s: string): (r: seq<string>)
    ensures forall i :: 0 <= i < |r| ==> IsToken(r[i])
    decreases |s|
  {
    var t := TrimStart(s);
    if t == [] then []
    else
      var n := TokenLen(t);
      assert n > 0;
      AllTokensCons(t[..n], SplitWhitespace(t[n..]));
      [t[..n]] + SplitWhitespace(t[n..])
  }

  lemma AllTokensCons(w: string, rest: seq<string>)
    requires IsToken(w)
    requires forall i :: 0 <= i < |rest| ==> IsToken(rest[i])
    ensures forall i :: 0 <= i < |[w] + rest| ==> IsToken(([w] + rest)[i])
  {
  }

  lemma {:induction false} TokenLenOfToken(w: string, rest: string)
    requires NoWhitespace(w)
    requires rest == [] || IsWhitespace(rest[0])
    ensures TokenLen(w + rest) == |w|
  {
    if w != [] {
      assert (w + rest)[1..] == w[1..] + rest;
      TokenLenOfToken(w[1..], rest);
    }
  }

  /** A token followed by whitespace (or by nothing) is the first piece of the split. */
  lemma SplitWhitespaceToken(w: string, rest: string)
    requires IsToken(w)
    requires rest == [] || IsWhitespace(rest[0])
    ensures SplitWhitespace(w + rest) == [w] + SplitWhitespace(rest)
  {
    assert TrimStart(w + rest) == w + rest;
    TokenLenOfToken(w, rest);
    assert (w + rest)[..|w|] == w;
    assert (w + rest)[|w|..] == rest;
    if rest != [] {
      assert TrimStart(rest) == TrimStart(rest[1..]);
    }
  }

  lemma SplitWhitespaceSkipsWhitespace(w: string, s: string)
    requires AllWhitespace(w)
    ensures SplitWhitespace(w + s) == SplitWhitespace(s)
  {
    TrimStartSkipsWhitespace(w, s);
  }

  /** `parts.join(sep)`. */
  function Join(parts: seq<string>, sep: string): string {
    if parts == [] then []
    else if |parts| == 1 then parts[0]
    else parts[0] + sep + Join(parts[1..], sep)
  }

  /** `s.strip_prefix(p)`: the rest of `s` when it starts with `p`. */
  function StripPrefix(s: string, p: string): (r: Option<string>)
    ensures r.Some? <==> |p| <= |s| && s[..|p|] == p
    ensures r.Some? ==> s == p + r.value
  {
    if |p| <= |s| && s[..|p|] == p then Some(s[|p|..]) else None
  }

  /** `s.split_once(c)`: the text before the first `c` and the text after it. */
  function SplitOnce(s: string, c: char): (r: Option<(string, string)>)
    ensures r.None? <==> c !in s
    ensures r.Some? ==> s == r.value.0 + [c] + r.value.1 && c !in r.value.0
  {
    if s == [] then None
    else if s[0] == c then Some(([], s[1..]))
    else
      var rest := SplitOnce(s[1..], c);
      if rest.None? then None
      else
        assert s == [s[0]] + rest.value.0 + [c] + rest.value.1;
        Some(([s[0]] + rest.value.0, rest.value.1))
  }

  /** Number of characters before the first line feed (all of them when there is none). */
  function LineLen(s: string): (n: nat)
    ensures n <= |s|
    ensures '\n' !in s[..n]
    ensures n < |s| ==> s[n] == '\n'
  {
    if s == [] || s[0] == '\n' then 0 else 1 + LineLen(s[1..])
  }

  /** Drops one carriage return at the end, the `\r` of a `\r\n` terminator. */
  function StripCr(s: string): string {
    if s != [] && s[|s| - 1] == '\r' then s[..|s| - 1] else s
  }

  /**
   * `lines`: split at `\n`, a `\r` just before the `\n` belongs to the terminator,
   * and a last line without terminator is kept as it is (an empty one is not a line).
   */
  function Lines(s: string): (r: seq<string>)
    ensures forall i :: 0 <= i < |r| ==> '\n' !in r[i]
    decreases |s|
  {
    if s == [] then []
    else
      var n := LineLen(s);
      if n == |s| then [s] else [StripCr(s[..n])] + Lines(s[n + 1..])
  }

  /** Every line followed by `\n`, the way a text file is written out. */
  function Terminated(ls: seq<string>): string {
    if ls == [] then [] else ls[0] + "\n" + Terminated(ls[1..])
  }

  lemma {:induction false} TerminatedSnoc(ls: seq<string>, l: string)
    ensures Terminated(ls + [l]) == Terminated(ls) + l + "\n"
  {
    if ls != [] {
      assert (ls + [l])[1..] == ls[1..] + [l];
      TerminatedSnoc(ls[1..], l);
    }
  }

  lemma {:induction false} LineLenOfTerminated(l: string, rest: string)
    requires '\n' !in l
    ensures LineLen(l + "\n" + rest) == |l|
  {
    if l != [] {
      assert (l + "\n" + rest)[1..] == l[1..] + "\n" + rest;
      LineLenOfTerminated(l[1..], rest);
    }
  }

  /** `lines` reads back exactly the lines that were written with `\n` after each. */
  lemma {:induction false} LinesOfTerminated(ls: seq<string>)
    requires forall i :: 0 <= i < |ls| ==> '\n' !in ls[i] && (ls[i] == [] || ls[i][|ls[i]| - 1] != '\r')
    ensures Lines(Terminated(ls)) == ls
  {
    if ls != [] {
      var l, rest := ls[0], Terminated(ls[1..]);
      var s := l + "\n" + rest;
      LineLenOfTerminated(l, rest);
      assert s[..|l|] == l;
      assert s[|l| + 1..] == rest;
      LinesOfTerminated(ls[1..]);
    }
  }

  /** `to_ascii_lowercase` of one character. */
  function AsciiLower(c: char): char {
    if 'A' <= c <= 'Z' then (c as int + 32) as char else c
  }

  /** `to_ascii_lowercase` of a string: only `A`-`Z` change. */
  function Lower(s: string): (r: string)
    ensures |r| == |s|
    ensures forall i :: 0 <= i < |s| ==> r[i] == AsciiLower(s[i])
  {
    if s == [] then [] else [AsciiLower(s[0])] + Lower(s[1..])
  }

  /** `eq_ignore_ascii_case`: same length, and the same characters once ASCII letters are lowered. */
  predicate EqIgnoreAsciiCase(a: string, b: string) {
    |a| == |b| && forall i :: 0 <= i < |a| ==> AsciiLower(a[i]) == AsciiLower(b[i])
  }

  /** Equal ignoring ASCII case is equal once lowered. */
  lemma EqIgnoreAsciiCaseIff(a: string, b: string)
    ensures EqIgnoreAsciiCase(a, b) <==> Lower(a) == Lower(b)
  {
    if Lower(a) == Lower(b) {
      assert forall i :: 0 <= i < |a| ==> Lower(a)[i] == Lower(b)[i];
    }
  }

  /** Strings equal up to ASCII case compare alike against any third string. */
  lemma EqIgnoreAsciiCaseLower(a: string, b: string, w: string)
    requires Lower(a) == Lower(b)
    ensures EqIgnoreAsciiCase(a, w) <==> EqIgnoreAsciiCase(b, w)
  {
    EqIgnoreAsciiCaseIff(a, w);
    EqIgnoreAsciiCaseIff(b, w);
  }

  /** `a <= b` for `String`: lexicographic by character (code point) order. */
  predicate LexLe(a: string, b: string)
    decreases |a|
  {
    a == [] || (b != [] && (a[0] < b[0] || (a[0] == b[0] && LexLe(a[1..], b[1..]))))
  }

  lemma {:induction false} LexLeTotal(a: string, b: string)
    ensures LexLe(a, b) || LexLe(b, a)
    decreases |a|
  {
    if a != [] && b != [] && a[0] == b[0] {
      LexLeTotal(a[1..], b[1..]);
    }
  }

  lemma {:induction false} LexLeTransitive(a: string, b: string, c: string)
    requires LexLe(a, b) && LexLe(b, c)
    ensures LexLe(a, c)
    decreases |a|
  {
    if a != [] && a[0] == b[0] && b[0] == c[0] {
      LexLeTransitive(a[1..], b[1..], c[1..]);
    }
  }

  lemma {:induction false} LexLeAntisymmetric(a: string, b: string)
    requires LexLe(a, b) && LexLe(b, a)
    ensures a == b
    decreases |a|
  {
    if a != [] {
      LexLeAntisymmetric(a[1..], b[1..]);
      assert a == [a[0]] + a[1..] && b == [b[0]] + b[1..];
    }
  }

  predicate IsDigit(c: char) {
    '0' <= c <= '9'
  }

  predicate AllDigits(s: string) {
    forall i :: 0 <= i < |s| ==> IsDigit(s[i])
  }

  /** The number a string of decimal digits denotes. */
  function DigitsValue(d: string): nat
    requires AllDigits(d)
    decreases |d|
  {
    if d == [] then 0 else DigitsValue(d[..|d| - 1]) * 10 + (d[|d| - 1] as int - '0' as int)
  }

  function DigitChar(d: nat): (c: char)
    requires d < 10
    ensures IsDigit(c) && c as int - '0' as int == d
  {
    ('0' as int + d) as char
  }

  /** `n.to_string()` for an unsigned integer: decimal, without leading zeros. */
  function NatToString(n: nat): (r: string)
    ensures r != [] && AllDigits(r)
    ensures r[0] == '0' ==> r == "0"
  {
    if n < 10 then [DigitChar(n)] else NatToString(n / 10) + [DigitChar(n % 10)]
  }

  lemma {:induction false} NatToStringValue(n: nat)
    ensures DigitsValue(NatToString(n)) == n
  {
    if n >= 10 {
      var s := NatToString(n / 10);
      assert (s + [DigitChar(n % 10)])[..|s|] == s;
      NatToStringValue(n / 10);
    }
  }

  const U16Max: nat := 0xFFFF
  const U32Max: nat := 0xFFFF_FFFF
  const U64Max: nat := 0xFFFF_FFFF_FFFF_FFFF

  /**
   * `s.parse::<uN>()` where `max` is the largest `uN`: an optional `+`, then one or
   * more ASCII digits whose value fits; anything else (empty, a lone `+`, a `-`, any
   * other character, overflow) is an error.
   */
  function ParseUnsigned(s: string, max: nat): (r: Option<nat>)
    ensures r.Some? <==> UnsignedDigits(s) != [] && AllDigits(UnsignedDigits(s)) && DigitsValue(UnsignedDigits(s)) <= max
    ensures r.Some? ==> AllDigits(UnsignedDigits(s)) && r.value == DigitsValue(UnsignedDigits(s)) && r.value <= max
    ensures r.Some? ==> s != [] && (IsDigit(s[0]) || s[0] == '+')
  {
    if s == [] then None
    else
      var digits := UnsignedDigits(s);
      if digits == [] || !AllDigits(digits) then None
      else if DigitsValue(digits) <= max then Some(DigitsValue(digits))
      else None
  }

  /** The digits of an unsigned number's text: all of it after one optional leading `+`. */
  function UnsignedDigits(s: string): string {
    if s != [] && s[0] == '+' then s[1..] else s
  }

  /** A run of `0`s denotes zero. */
  lemma {:induction false} ZerosValue(z: string)
    requires forall i :: 0 <= i < |z| ==> z[i] == '0'
    ensures AllDigits(z) && DigitsValue(z) == 0
  {
    if z != [] {
      ZerosValue(z[..|z| - 1]);
    }
  }

  /** Leading zeros do not change the number digits denote. */
  lemma {:induction false} LeadingZerosValue(z: string, t: string)
    requires forall i :: 0 <= i < |z| ==> z[i] == '0'
    requires AllDigits(t)
    ensures AllDigits(z + t) && DigitsValue(z + t) == DigitsValue(t)
  {
    if t == [] {
      assert z + t == z;
      ZerosValue(z);
    } else {
      var init := t[..|t| - 1];
      assert (z + t)[..|z + t| - 1] == z + init;
      LeadingZerosValue(z, init);
    }
  }

  /**
   * The parse accepts more than the canonical text: any leading `0`s before the digits
   * of `n`, which then parse to `n` if it fits and fail otherwise.
   */
  lemma ParseUnsignedLenient(n: nat, max: nat, z: string)
    requires forall i :: 0 <= i < |z| ==> z[i] == '0'
    ensures ParseUnsigned(z + NatToString(n), max) == if n <= max then Some(n) else None
  {
    NatToStringValue(n);
    ParseUnsignedPadded(NatToString(n), max, z);
  }

  /** The same with a `+` in front. */
  lemma ParseUnsignedLenientSigned(n: nat, max: nat, z: string)
    requires forall i :: 0 <= i < |z| ==> z[i] == '0'
    ensures ParseUnsigned("+" + z + NatToString(n), max) == if n <= max then Some(n) else None
  {
    var t := NatToString(n);
    NatToStringValue(n);
    ParseUnsignedSignedPadded(t, max, z);
    assert "+" + z + t == "+" + (z + t);
  }

  /** Leading zeros before digits: the digits' value if it fits. */
  lemma ParseUnsignedPadded(t: string, max: nat, z: string)
    requires t != [] && AllDigits(t)
    requires forall i :: 0 <= i < |z| ==> z[i] == '0'
    ensures ParseUnsigned(z + t, max) == if DigitsValue(t) <= max then Some(DigitsValue(t)) else None
  {
    LeadingZerosValue(z, t);
    ParseUnsignedOfDigits(z + t, max);
  }

  /** A `+` and leading zeros before digits: the digits' value if it fits. */
  lemma ParseUnsignedSignedPadded(t: string, max: nat, z: string)
    requires t != [] && AllDigits(t)
    requires forall i :: 0 <= i < |z| ==> z[i] == '0'
    ensures ParseUnsigned("+" + (z + t), max) == if DigitsValue(t) <= max then Some(DigitsValue(t)) else None
  {
    LeadingZerosValue(z, t);
    ParseUnsignedOfDigits(z + t, max);
    ParseUnsignedPlus(z + t, max);
  }

  /** Digits alone parse to their value when it fits. */
  lemma ParseUnsignedOfDigits(d: string, max: nat)
    requires d != [] && AllDigits(d)
    ensures ParseUnsigned(d, max) == if DigitsValue(d) <= max then Some(DigitsValue(d)) else None
  {
    assert UnsignedDigits(d) == d;
  }

  /** One leading `+` in front of digits changes nothing. */
  lemma ParseUnsignedPlus(d: string, max: nat)
    requires d != [] && AllDigits(d)
    ensures ParseUnsigned("+" + d, max) == ParseUnsigned(d, max)
  {
    assert UnsignedDigits("+" + d) == d;
    assert UnsignedDigits(d) == d;
  }

  /** Any character that is not a digit, other than a leading `+`, makes the parse fail. */
  lemma ParseUnsignedRejects(s: string, max: nat, i: nat)
    requires i < |s| && !IsDigit(s[i]) && !(i == 0 && s[i] == '+')
    ensures ParseUnsigned(s, max) == None
  {
    if s[0] == '+' {
      assert UnsignedDigits(s)[i - 1] == s[i];
    } else {
      assert UnsignedDigits(s)[i] == s[i];
    }
  }

  /** Printing an integer in range and parsing it back gives the integer. */
  lemma ParseUnsignedOfNatToString(n: nat, max: nat)
    requires n <= max
    ensures ParseUnsigned(NatToString(n), max) == Some(n)
  {
    NatToStringValue(n);
  }
}
