/** String helpers standing in for the JavaScript built-ins the source calls:
    `toLowerCase` (ASCII letters only), `includes`, `String(n)`, `padStart`, `trim` and `replace(/c/g, d)`. */
module Text {
  import opened Wrappers

  /** `c` lower-cased if it is an ASCII capital, unchanged otherwise. */
  function LowerChar(c: char): char {
    if 'A' <= c <= 'Z' then (c as int + 32) as char else c
  }

  /** ASCII lower-casing of a whole string. */
  function Lower(s: string): (r: string)
    ensures |r| == |s|
    ensures forall i :: 0 <= i < |s| ==> r[i] == LowerChar(s[i])
    ensures forall i :: 0 <= i < |r| ==> !('A' <= r[i] <= 'Z')
  {
    seq(|s|, i requires 0 <= i < |s| => LowerChar(s[i]))
  }

  /** Lower-casing twice is lower-casing once. */
  lemma LowerIdempotent(s: string)
    ensures Lower(Lower(s)) == Lower(s)
  {
  }

  /** `t` occurs in `s` starting at position `p`. */
  predicate OccursAt(s: string, t: string, p: nat) {
    p + |t| <= |s| && s[p..p + |t|] == t
  }

  /** `s.includes(t)`: a left-to-right scan for an occurrence of `t` at or after position `from`. */
  function ContainsFrom(s: string, t: string, from: nat): (r: bool)
    ensures r <==> exists p: nat :: from <= p && OccursAt(s, t, p)
    decreases |s| - from
  {
    if from + |t| > |s| then false
    else if s[from..from + |t|] == t then assert OccursAt(s, t, from); true
    else ContainsFrom(s, t, from + 1)
  }

  /** `s.includes(t)`. */
  function Contains(s: string, t: string): (r: bool)
    ensures r <==> exists p: nat :: OccursAt(s, t, p)
  {
    ContainsFrom(s, t, 0)
  }

  /** Every string includes the empty string. */
  lemma ContainsEmpty(s: string)
    ensures Contains(s, "")
  {
    assert OccursAt(s, "", 0);
  }

  /** A string includes itself. */
  lemma ContainsSelf(s: string)
    ensures Contains(s, s)
  {
    assert OccursAt(s, s, 0);
  }

  /** An occurrence inside a part of a concatenation is an occurrence in the whole. */
  lemma ContainsInConcat(a: string, b: string, c: string, t: string)
    requires Contains(b, t)
    ensures Contains(a + b + c, t)
  {
    var p: nat :| OccursAt(b, t, p);
    assert (a + b + c)[|a| + p..|a| + p + |t|] == b[p..p + |t|];
    assert OccursAt(a + b + c, t, |a| + p);
  }

  predicate IsDigit(c: char) {
    '0' <= c <= '9'
  }

  function DigitChar(d: nat): char
    requires d < 10
  {
    ('0' as int + d) as char
  }

  function DigitValue(c: char): nat
    requires IsDigit(c)
  {
    c as int - '0' as int
  }

  /** `String(n)` for a non-negative integer: its decimal digits without leading zeros. */
  function DecimalString(n: nat): (r: string)
    ensures 1 <= |r|
    ensures forall i :: 0 <= i < |r| ==> IsDigit(r[i])
    ensures |r| > 1 ==> r[0] != '0'
    ensures n < 10 <==> |r| == 1
  {
    if n < 10 then [DigitChar(n)] else DecimalString(n / 10) + [DigitChar(n % 10)]
  }

  /** The value of a string of decimal digits, leading zeros allowed. */
  function ParseDecimal(s: string): nat
    requires forall i :: 0 <= i < |s| ==> IsDigit(s[i])
  {
    if |s| == 0 then 0 else 10 * ParseDecimal(s[..|s| - 1]) + DigitValue(s[|s| - 1])
  }

  /** Reading the digits of `String(n)` back gives `n`. */
  lemma {:induction false} DecimalRoundTrip(n: nat)
    ensures ParseDecimal(DecimalString(n)) == n
  {
    if n >= 10 {
      var s := DecimalString(n);
      assert s[..|s| - 1] == DecimalString(n / 10);
      DecimalRoundTrip(n / 10);
    }
  }

  /** Distinct numbers print differently. */
  lemma DecimalInjective(m: nat, n: nat)
    requires DecimalString(m) == DecimalString(n)
    ensures m == n
  {
    DecimalRoundTrip(m);
    DecimalRoundTrip(n);
  }

  function Pow10(k: nat): (r: nat)
    ensures r >= 1
  {
    if k == 0 then 1 else 10 * Pow10(k - 1)
  }

  /** A number of at least `10^k` prints with more than `k` digits. */
  lemma {:induction false} DecimalLengthBound(n: nat, k: nat)
    requires n >= Pow10(k)
    ensures |DecimalString(n)| > k
  {
    if k > 0 {
      assert n >= 10;
      assert n / 10 >= Pow10(k - 1);
      DecimalLengthBound(n / 10, k - 1);
    }
  }

  /** The position of the first `c` in `s`, if any (`s.indexOf(c)`). */
  function FirstIndexOf(s: string, c: char): (r: Option<nat>)
    ensures r.Some? ==> r.value < |s| && s[r.value] == c && forall j :: 0 <= j < r.value ==> s[j] != c
    ensures r.None? ==> forall j :: 0 <= j < |s| ==> s[j] != c
  {
    if |s| == 0 then None
    else if s[0] == c then Some(0)
    else match FirstIndexOf(s[1..], c)
      case None => None
      case Some(k) => Some(k + 1)
  }

  /** The first `c` of `a + [c] + b` is the one after `a` when `a` has none. */
  lemma {:induction false} FirstIndexOfAfter(a: string, c: char, b: string)
    requires forall i :: 0 <= i < |a| ==> a[i] != c
    ensures FirstIndexOf(a + [c] + b, c) == Some(|a|)
  {
    if |a| > 0 {
      assert (a + [c] + b)[1..] == a[1..] + [c] + b;
      FirstIndexOfAfter(a[1..], c, b);
    }
  }

  predicate AllDigits(s: string) {
    forall i :: 0 <= i < |s| ==> IsDigit(s[i])
  }

  /** `k` copies of `c`. */
  function Repeat(c: char, k: nat): (r: string)
    ensures |r| == k
    ensures forall i :: 0 <= i < k ==> r[i] == c
  {
    seq(k, _ => c)
  }

  /** Leading zeros do not change the value of a digit string. */
  lemma {:induction false} ParseIgnoresLeadingZeros(k: nat, s: string)
    requires forall i :: 0 <= i < |s| ==> IsDigit(s[i])
    ensures forall i :: 0 <= i < |Repeat('0', k) + s| ==> IsDigit((Repeat('0', k) + s)[i])
    ensures ParseDecimal(Repeat('0', k) + s) == ParseDecimal(s)
    decreases |s| + k
  {
    var z := Repeat('0', k);
    if |s| == 0 {
      assert z + s == z;
      if k > 0 {
        assert z[..k - 1] == Repeat('0', k - 1);
        ParseIgnoresLeadingZeros(k - 1, s);
        assert Repeat('0', k - 1) + s == Repeat('0', k - 1);
      }
    } else {
      var t := s[..|s| - 1];
      assert (z + s)[..|z + s| - 1] == z + t;
      ParseIgnoresLeadingZeros(k, t);
    }
  }

  /** `s.padStart(width, c)`: `s` preceded by enough copies of `c` to reach `width`; never truncates. */
  function PadStart(s: string, width: nat, c: char): (r: string)
    ensures |r| == if |s| >= width then |s| else width
    ensures r[|r| - |s|..] == s
    ensures forall i :: 0 <= i < |r| - |s| ==> r[i] == c
  {
    if |s| >= width then s else Repeat(c, width - |s|) + s
  }

  /** The characters JavaScript's `trim` removes: WhiteSpace and LineTerminator of ECMA-262 section 12.2 and 12.3. */
  predicate IsWhitespace(c: char) {
    || c == '\t' || c == '\n' || c == '\U{000B}' || c == '\U{000C}' || c == '\r' || c == ' '
    || c == '\U{00A0}' || c == '\U{1680}' || ('\U{2000}' <= c <= '\U{200A}')
    || c == '\U{2028}' || c == '\U{2029}' || c == '\U{202F}' || c == '\U{205F}'
    || c == '\U{3000}' || c == '\U{FEFF}'
  }

  /** `s` without its leading whitespace. */
  function TrimStart(s: string): (r: string)
    ensures |r| <= |s| && r == s[|s| - |r|..]
    ensures forall i :: 0 <= i < |s| - |r| ==> IsWhitespace(s[i])
    ensures |r| > 0 ==> !IsWhitespace(r[0])
  {
    if |s| > 0 && IsWhitespace(s[0]) then
      var r := TrimStart(s[1..]);
      assert r == s[|s| - |r|..];
      assert forall i :: 1 <= i < |s| - |r| ==> s[i] == s[1..][i - 1];
      r
    else s
  }

  /** `s` without its trailing whitespace. */
  function TrimEnd(s: string): (r: string)
    ensures |r| <= |s| && r == s[..|r|]
    ensures forall i :: |r| <= i < |s| ==> IsWhitespace(s[i])
    ensures |r| > 0 ==> !IsWhitespace(r[|r| - 1])
  {
    if |s| > 0 && IsWhitespace(s[|s| - 1]) then
      var r := TrimEnd(s[..|s| - 1]);
      assert r == s[..|r|];
      r
    else s
  }

  /** Where the trimmed text of `s` starts: the number of leading whitespace characters. */
  function TrimOffset(s: string): (k: nat)
    ensures k <= |s|
  {
    |s| - |TrimStart(s)|
  }

  /** `s.trim()`: the slice of `s` left after cutting whitespace off both ends; it neither starts
      nor ends with whitespace, and everything cut off is whitespace. */
  function Trim(s: string): (r: string)
    ensures TrimOffset(s) + |r| <= |s| && r == s[TrimOffset(s)..TrimOffset(s) + |r|]
    ensures forall i :: 0 <= i < TrimOffset(s) ==> IsWhitespace(s[i])
    ensures forall i :: TrimOffset(s) + |r| <= i < |s| ==> IsWhitespace(s[i])
    ensures |r| > 0 ==> !IsWhitespace(r[0]) && !IsWhitespace(r[|r| - 1])
  {
    var a := TrimStart(s);
    var r := TrimEnd(a);
    PrefixOfSuffix(s, |s| - |a|, a, r);
    r
  }

  /** A prefix `r` of the suffix `a` of `s` that starts at `k` is the slice of `s` from `k`, and
      what follows it in `s` is what follows it in `a`. */
  lemma PrefixOfSuffix(s: string, k: nat, a: string, r: string)
    requires k <= |s| && a == s[k..]
    requires |r| <= |a| && r == a[..|r|]
    ensures r == s[k..k + |r|]
    ensures forall i :: k + |r| <= i < |s| ==> s[i] == a[i - k]
  {
  }

  /** Text that neither starts nor ends with whitespace is left as it is. */
  lemma TrimUnpadded(s: string)
    requires |s| > 0 ==> !IsWhitespace(s[0]) && !IsWhitespace(s[|s| - 1])
    ensures Trim(s) == s
  {
    assert TrimStart(s) == s;
  }

  /** Trimming twice is trimming once. */
  lemma TrimIdempotent(s: string)
    ensures Trim(Trim(s)) == Trim(s)
  {
    TrimUnpadded(Trim(s));
  }

  /** Trimming yields the empty string exactly when the input is whitespace only. */
  lemma TrimEmptyIff(s: string)
    ensures Trim(s) == "" <==> forall i :: 0 <= i < |s| ==> IsWhitespace(s[i])
  {
  }

  /** `s.replace(/x/g, y)` for single characters `x` and `y`: no `x` is left when `y` differs from
      it, and text without `x` comes back unchanged. */
  function ReplaceAll(s: string, x: char, y: char): (r: string)
    ensures |r| == |s|
    ensures x != y ==> forall i :: 0 <= i < |r| ==> r[i] != x
    ensures (forall i :: 0 <= i < |s| ==> s[i] != x) ==> r == s
    ensures forall i :: 0 <= i < |s| ==> r[i] == (if s[i] == x then y else s[i])
  {
    seq(|s|, i requires 0 <= i < |s| => if s[i] == x then y else s[i])
  }

  /** Replacing back undoes the replacement when the replacement character did not occur before:
      `IN_TRANSIT` shown as `IN TRANSIT` can be read back. */
  lemma ReplaceAllUndo(s: string, x: char, y: char)
    requires forall i :: 0 <= i < |s| ==> s[i] != y
    ensures ReplaceAll(ReplaceAll(s, x, y), y, x) == s
  {
  }

  /** Replacing twice is replacing once. */
  lemma ReplaceAllIdempotent(s: string, x: char, y: char)
    ensures ReplaceAll(ReplaceAll(s, x, y), x, y) == ReplaceAll(s, x, y)
  {
  }
}
