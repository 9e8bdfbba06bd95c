/// The string operations of Python that the account code relies on: `strip`,
/// lower-casing of ASCII capitals, `str` of an integer and `int` of a decimal
/// string.
module Text {
  import opened Common

  /// The characters for which `str.isspace()` holds: those `str.strip()`
  /// removes and `\s` matches in a regular expression.
  predicate IsSpace(c: char)
  {
    ('\U{9}' <= c <= '\U{D}') || ('\U{1C}' <= c <= '\U{20}') || c == '\U{85}' || c == '\U{A0}' ||
    c == '\U{1680}' || ('\U{2000}' <= c <= '\U{200A}') || c == '\U{2028}' || c == '\U{2029}' ||
    c == '\U{202F}' || c == '\U{205F}' || c == '\U{3000}'
  }

  function StripLeft(s: string): (r: string)
    ensures |r| <= |s| && r == s[|s| - |r|..]
    ensures r == [] || !IsSpace(r[0])
    ensures forall i | 0 <= i < |s| - |r| :: IsSpace(s[i])
  {
    if s != [] && IsSpace(s[0]) then StripLeft(s[1..]) else s
  }

  function StripRight(s: string): (r: string)
    ensures |r| <= |s| && r == s[..|r|]
    ensures r == [] || !IsSpace(r[|r| - 1])
    ensures forall i | |r| <= i < |s| :: IsSpace(s[i])
  {
    if s != [] && IsSpace(s[|s| - 1]) then StripRight(s[..|s| - 1]) else s
  }

  /// `s.strip()`.
  function Strip(s: string): (r: string)
    ensures r == [] || (!IsSpace(r[0]) && !IsSpace(r[|r| - 1]))
  {
    StripRight(StripLeft(s))
  }

  /// `strip` removes white space only: the result is a slice of the text,
  /// with nothing but white space before it and after it.
  lemma StripRemovesOnlySpace(s: string)
    ensures var i, r := |s| - |StripLeft(s)|, Strip(s);
      i + |r| <= |s| && (forall k | 0 <= k < |r| :: r[k] == s[i + k]) &&
      (forall k | 0 <= k < i :: IsSpace(s[k])) && (forall k | i + |r| <= k < |s| :: IsSpace(s[k]))
  {
    var left := StripLeft(s);
    var r := StripRight(left);
    assert Strip(s) == r;
    TrimmedSlice(s, left, r);
  }

  /// Trimming leading and then trailing white space leaves a slice with only
  /// white space around it.
  lemma TrimmedSlice(s: string, left: string, r: string)
    requires |left| <= |s| && left == s[|s| - |left|..] && forall k | 0 <= k < |s| - |left| :: IsSpace(s[k])
    requires |r| <= |left| && r == left[..|r|] && forall k | |r| <= k < |left| :: IsSpace(left[k])
    ensures var i := |s| - |left|;
      (forall k | 0 <= k < |r| :: r[k] == s[i + k]) &&
      (forall k | 0 <= k < i :: IsSpace(s[k])) && (forall k | i + |r| <= k < |s| :: IsSpace(s[k]))
  {
    var i := |s| - |left|;
    forall k | i + |r| <= k < |s|
      ensures IsSpace(s[k])
    {
      assert s[k] == left[k - i];
    }
  }

  /// A string with no white space at either end is its own strip.
  lemma StripTrimmed(s: string)
    requires s == [] || (!IsSpace(s[0]) && !IsSpace(s[|s| - 1]))
    ensures Strip(s) == s
  {
  }

  function LowerChar(c: char): (r: char)
    ensures 'A' <= c <= 'Z' ==> r == c - 'A' + 'a'
    ensures !('A' <= c <= 'Z') ==> r == c
  {
    if 'A' <= c <= 'Z' then c - 'A' + 'a' else c
  }

  /// `s.lower()` on ASCII letters.
  function Lower(s: string): (r: string)
    ensures |r| == |s|
    ensures forall i | 0 <= i < |s| :: r[i] == LowerChar(s[i])
  {
    if s == [] then [] else [LowerChar(s[0])] + Lower(s[1..])
  }

  lemma LowerIdempotent(s: string)
    ensures Lower(Lower(s)) == Lower(s)
  {
  }

  // ---------------------------------------------------------------- integers

  predicate IsDigit(c: char)
  {
    '0' <= c <= '9'
  }

  function DigitChar(d: nat): (c: char)
    requires d < 10
    ensures IsDigit(c)
  {
    ['0', '1', '2', '3', '4', '5', '6', '7', '8', '9'][d]
  }

  function DigitValue(c: char): (d: nat)
    requires IsDigit(c)
    ensures d < 10 && DigitChar(d) == c
  {
    (c - '0') as nat
  }

  /// Decimal digits of `n`, most significant first, no leading zero.
  function NatToString(n: nat): (s: string)
    ensures |s| >= 1 && (forall i | 0 <= i < |s| :: IsDigit(s[i]))
    decreases n
  {
    if n < 10 then [DigitChar(n)] else NatToString(n / 10) + [DigitChar(n % 10)]
  }

  /// `str(i)` for an integer.
  function IntToString(i: int): (s: string)
    ensures |s| >= 1
    ensures i >= 0 ==> forall k | 0 <= k < |s| :: IsDigit(s[k])
    ensures i < 0 ==> |s| >= 2 && s[0] == '-' && forall k | 1 <= k < |s| :: IsDigit(s[k])
  {
    if i >= 0 then NatToString(i) else "-" + NatToString(-i)
  }

  /// The value of a string of decimal digits.
  function DigitsValue(s: string): nat
    requires forall i | 0 <= i < |s| :: IsDigit(s[i])
  {
    if s == [] then 0 else 10 * DigitsValue(s[..|s| - 1]) + DigitValue(s[|s| - 1])
  }

  predicate AllDigits(s: string)
  {
    |s| >= 1 && forall i | 0 <= i < |s| :: IsDigit(s[i])
  }

  /// `int(s)` for an optional sign followed by decimal digits; None for
  /// anything else (the digit separator `_` is not modelled).
  function ParseInteger(s: string): (r: Option<int>)
    ensures r.Some? <==> AllDigits(s) || (|s| >= 2 && (s[0] == '-' || s[0] == '+') && AllDigits(s[1..]))
    ensures r.Some? && s[0] == '-' ==> r.value <= 0
    ensures r.Some? && s[0] != '-' ==> r.value >= 0
  {
    if AllDigits(s) then Some(DigitsValue(s))
    else if |s| >= 2 && s[0] == '-' && AllDigits(s[1..]) then Some(-(DigitsValue(s[1..]) as int))
    else if |s| >= 2 && s[0] == '+' && AllDigits(s[1..]) then Some(DigitsValue(s[1..]))
    else None
  }

  lemma {:induction false} DigitsValueOfNatToString(n: nat)
    ensures DigitsValue(NatToString(n)) == n
    decreases n
  {
    var s := NatToString(n);
    if n < 10 {
      DigitValueOfChar(n);
      assert s[..0] == [];
    } else {
      var prefix := NatToString(n / 10);
      assert s[..|s| - 1] == prefix && s[|s| - 1] == DigitChar(n % 10);
      DigitsValueOfNatToString(n / 10);
      DigitValueOfChar(n % 10);
    }
  }

  lemma DigitValueOfChar(d: nat)
    requires d < 10
    ensures DigitValue(DigitChar(d)) == d
  {
  }

  /// `int(str(i)) == i`.
  lemma ParseIntegerOfIntToString(i: int)
    ensures ParseInteger(IntToString(i)) == Some(i)
  {
    if i >= 0 {
      DigitsValueOfNatToString(i);
    } else {
      var s := IntToString(i);
      assert s[1..] == NatToString(-i);
      DigitsValueOfNatToString(-i);
    }
  }

  /// The position of the last occurrence of `c` in `s`, as `str.rfind`.
  function LastIndexOf(s: string, c: char): (r: Option<nat>)
    ensures r.None? <==> forall i | 0 <= i < |s| :: s[i] != c
    ensures r.Some? ==> r.value < |s| && s[r.value] == c && forall i | r.value < i < |s| :: s[i] != c
  {
    if s == [] then None
    else if s[|s| - 1] == c then Some(|s| - 1)
    else LastIndexOf(s[..|s| - 1], c)
  }

  /// A position holding `c` with no `c` after it is the one `LastIndexOf` finds.
  lemma {:induction false} LastIndexOfAt(s: string, c: char, i: nat)
    requires i < |s| && s[i] == c && forall k | i < k < |s| :: s[k] != c
    ensures LastIndexOf(s, c) == Some(i)
    decreases |s|
  {
    if i < |s| - 1 {
      LastIndexOfAt(s[..|s| - 1], c, i);
    }
  }

  /// In `local + "@" + domain` with no '@' in the domain, the last '@' is
  /// the one joining the two.
  lemma JoinedLastAt(local: string, domain: string)
    requires forall k | 0 <= k < |domain| :: domain[k] != '@'
    ensures LastIndexOf(local + "@" + domain, '@') == Some(|local|)
    ensures (local + "@" + domain)[..|local|] == local && (local + "@" + domain)[|local| + 1..] == domain
  {
    var s := local + "@" + domain;
    var i := |local|;
    assert s[..i] == local && s[i + 1..] == domain;
    forall k | i < k < |s|
      ensures s[k] != '@'
    {
      assert s[k] == s[i + 1..][k - i - 1];
    }
    LastIndexOfAt(s, '@', i);
  }
}
