/**
 Small building blocks shared by every other module: an optional value and
 the handful of Kotlin string operations the app
 relies on (`startsWith`, `endsWith`, `contains`, `trim`, `isBlank`,
 `toIntOrNull` and decimal rendering of a number), each stated on `seq<char>`.
 */
module Basics {

  datatype Option<+T> = None | Some(value: T) {
    /** The wrapped value, or `default` when there is none (Kotlin's `?:`). */
    function GetOr(default: T): T {
      match this
      case Some(v) => v
      case None => default
    }
  }

  // ---------------------------------------------------------------------------
  // Prefixes, suffixes and substrings
  // ---------------------------------------------------------------------------

  predicate StartsWith(s: string, prefix: string) {
    |prefix| <= |s| && s[..|prefix|] == prefix
  }

  predicate EndsWith(s: string, suffix: string) {
    |suffix| <= |s| && s[|s| - |suffix|..] == suffix
  }

  /** `t` occurs in `s` starting at index `i`. */
  predicate OccursAt(s: string, t: string, i: nat) {
    i + |t| <= |s| && s[i..i + |t|] == t
  }

  /** Kotlin's `String.contains(CharSequence)`: some occurrence exists. */
  predicate Contains(s: string, t: string) {
    exists i: nat | i <= |s| :: OccursAt(s, t, i)
  }

  lemma AppendAssociates<T>(a: seq<T>, b: seq<T>, c: seq<T>)
    ensures a + (b + c) == (a + b) + c
  {
  }

  lemma {:induction false} StartsWithAppend(prefix: string, rest: string)
    ensures StartsWith(prefix + rest, prefix)
    ensures (prefix + rest)[|prefix|..] == rest
  {
    assert (prefix + rest)[..|prefix|] == prefix;
  }

  /** An occurrence of a longer pattern carries every occurrence of its parts. */
  lemma {:induction false} ContainsInfix(s: string, t: string, a: nat, b: nat)
    requires Contains(s, t)
    requires a <= b <= |t|
    ensures Contains(s, t[a..b])
  {
    var i: nat :| i <= |s| && OccursAt(s, t, i);
    forall k | 0 <= k < b - a
      ensures s[i + a..i + b][k] == t[a..b][k]
    {
      assert s[i..i + |t|][a + k] == t[a + k];
    }
    assert s[i + a..i + b] == t[a..b];
    assert OccursAt(s, t[a..b], i + a);
  }

  // ---------------------------------------------------------------------------
  // Whitespace, trim and isBlank
  // ---------------------------------------------------------------------------

  /**
   Kotlin's `Char.isWhitespace()` on the JVM: `Character.isWhitespace` or
   `Character.isSpaceChar`, written out as the code points it accepts.
   */
  predicate IsWhitespace(c: char) {
    || ('\U{0009}' <= c <= '\U{000D}')
    || ('\U{001C}' <= c <= '\U{0020}')
    || c == '\U{00A0}' || c == '\U{1680}'
    || ('\U{2000}' <= c <= '\U{200A}')
    || c == '\U{2028}' || c == '\U{2029}' || c == '\U{202F}'
    || c == '\U{205F}' || c == '\U{3000}'
  }

  /** Kotlin's `CharSequence.isBlank()`: every character is whitespace. */
  predicate IsBlank(s: string) {
    forall i | 0 <= i < |s| :: IsWhitespace(s[i])
  }

  /** Number of whitespace characters at the front of `s`. */
  function LeadingWhitespace(s: string): (k: nat)
    ensures k <= |s|
    ensures forall i | 0 <= i < k :: IsWhitespace(s[i])
    ensures k < |s| ==> !IsWhitespace(s[k])
  {
    if |s| == 0 || !IsWhitespace(s[0]) then 0
    else 1 + LeadingWhitespace(s[1..])
  }

  /** Number of whitespace characters at the back of `s`. */
  function TrailingWhitespace(s: string): (k: nat)
    ensures k <= |s|
    ensures forall i | |s| - k <= i < |s| :: IsWhitespace(s[i])
    ensures k < |s| ==> !IsWhitespace(s[|s| - k - 1])
  {
    if |s| == 0 || !IsWhitespace(s[|s| - 1]) then 0
    else 1 + TrailingWhitespace(s[..|s| - 1])
  }

  /** Kotlin's `String.trim()`: drop whitespace from both ends. */
  function Trim(s: string): (r: string)
    ensures |r| <= |s|
    ensures |r| == 0 <==> IsBlank(s)
    ensures |r| > 0 ==> !IsWhitespace(r[0]) && !IsWhitespace(r[|r| - 1])
    ensures forall i | 0 <= i < |r| :: r[i] in s
  {
    var front := s[LeadingWhitespace(s)..];
    var r := front[..|front| - TrailingWhitespace(front)];
    assert IsBlank(s) ==> LeadingWhitespace(s) == |s|;
    assert forall i | 0 <= i < |r| :: r[i] == s[LeadingWhitespace(s) + i];
    r
  }

  /** Trim removes exactly the whitespace padding around a word with solid ends. */
  lemma {:induction false} TrimPadded(left: string, core: string, right: string)
    requires IsBlank(left) && IsBlank(right)
    requires |core| > 0 && !IsWhitespace(core[0]) && !IsWhitespace(core[|core| - 1])
    ensures Trim(left + core + right) == core
  {
    var s := left + core + right;
    LeadingOfPadded(left, core + right);
    assert s == left + (core + right);
    assert s[|left|..] == core + right;
    TrailingOfPadded(core, right);
    assert (core + right)[..|core|] == core;
  }

  lemma {:induction false} LeadingOfPadded(left: string, rest: string)
    requires IsBlank(left)
    requires |rest| > 0 && !IsWhitespace(rest[0])
    ensures LeadingWhitespace(left + rest) == |left|
    decreases |left|
  {
    if |left| > 0 {
      assert (left + rest)[1..] == left[1..] + rest;
      LeadingOfPadded(left[1..], rest);
    } else {
      assert left + rest == rest;
    }
  }

  lemma {:induction false} TrailingOfPadded(rest: string, right: string)
    requires IsBlank(right)
    requires |rest| > 0 && !IsWhitespace(rest[|rest| - 1])
    ensures TrailingWhitespace(rest + right) == |right|
    decreases |right|
  {
    if |right| > 0 {
      assert (rest + right)[..|rest + right| - 1] == rest + right[..|right| - 1];
      TrailingOfPadded(rest, right[..|right| - 1]);
    } else {
      assert rest + right == rest;
    }
  }

  /** Trimming twice is trimming once. */
  lemma TrimIdempotent(s: string)
    ensures Trim(Trim(s)) == Trim(s)
  {
    var r := Trim(s);
    if |r| > 0 {
      TrimPadded([], r, []);
      assert [] + r + [] == r;
    }
  }

  // ---------------------------------------------------------------------------
  // Decimal numbers: rendering and Kotlin's String.toIntOrNull()
  // ---------------------------------------------------------------------------

  const IntMin: int := -0x8000_0000
  const IntMax: int := 0x7FFF_FFFF

  predicate IsDigit(c: char) {
    '0' <= c <= '9'
  }

  predicate AllDigits(s: string) {
    forall i | 0 <= i < |s| :: IsDigit(s[i])
  }

  /** The value of a string of decimal digits, most significant first. */
  function DigitsValue(s: string): nat
    requires AllDigits(s)
  {
    if |s| == 0 then 0
    else DigitsValue(s[..|s| - 1]) * 10 + (s[|s| - 1] as int - '0' as int)
  }

  /** Decimal rendering of a natural number without leading zeros. */
  function ShowNat(n: nat): (r: string)
    ensures |r| > 0 && AllDigits(r)
    ensures r[0] == '0' ==> n == 0
  {
    var last := [('0' as int + n % 10) as char];
    if n < 10 then last else ShowNat(n / 10) + last
  }

  /** Decimal rendering of an integer, `-` in front of negative values. */
  function ShowInt(n: int): (r: string)
    ensures |r| > 0
  {
    if n < 0 then "-" + ShowNat(-n) else ShowNat(n)
  }

  lemma {:induction false} ShowNatValue(n: nat)
    ensures DigitsValue(ShowNat(n)) == n
    decreases n
  {
    var r := ShowNat(n);
    if n >= 10 {
      ShowNatValue(n / 10);
      assert r[..|r| - 1] == ShowNat(n / 10);
    }
  }

  /** Distinct numbers render differently. */
  lemma ShowNatInjective(a: nat, b: nat)
    requires ShowNat(a) == ShowNat(b)
    ensures a == b
  {
    ShowNatValue(a);
    ShowNatValue(b);
  }

  /**
   Kotlin's `String.toIntOrNull()` in base 10: an optional `+` or `-`, then at
   least one ASCII digit, and a value that fits a 32-bit `Int`; anything else
   is `null`.
   */
  function ToIntOrNull(s: string): (r: Option<int>)
    ensures r.Some? ==> IntMin <= r.value <= IntMax
    ensures r.Some? ==> |s| > 0 && AllDigits(s[1..]) && (IsDigit(s[0]) || s[0] == '+' || s[0] == '-')
    ensures r.Some? ==> IsDigit(s[|s| - 1])
    ensures |s| > 0 && AllDigits(s) && DigitsValue(s) <= IntMax ==> r == Some(DigitsValue(s))
    ensures |s| > 0 && AllDigits(s) && DigitsValue(s) > IntMax ==> r.None?
    ensures |s| > 1 && (s[0] == '+' || s[0] == '-') && AllDigits(s[1..]) ==>
      r == (var v := if s[0] == '-' then -(DigitsValue(s[1..]) as int) else DigitsValue(s[1..]) as int;
            if IntMin <= v <= IntMax then Some(v) else None)
  {
    if |s| == 0 then None
    else if s[0] == '-' || s[0] == '+' then
      var body := s[1..];
      if |body| == 0 || !AllDigits(body) then None
      else
        var magnitude: int := DigitsValue(body);
        var v := if s[0] == '-' then -magnitude else magnitude;
        if IntMin <= v <= IntMax then Some(v) else None
    else if AllDigits(s) then
      var v := DigitsValue(s);
      if v <= IntMax then Some(v) else None
    else None
  }

  /** Rendering an `Int` and parsing it back gives the same number. */
  lemma ToIntOrNullShowInt(n: int)
    requires IntMin <= n <= IntMax
    ensures ToIntOrNull(ShowInt(n)) == Some(n)
  {
    if n < 0 {
      var s := ShowInt(n);
      assert s[1..] == ShowNat(-n);
      ShowNatValue(-n);
    } else {
      ShowNatValue(n);
    }
  }
}
