/**
 * String helpers standing in for the JavaScript built-ins that the gateway
 * relies on: `startsWith`, `replace` with a string pattern (first occurrence
 * only), `Array.prototype.join`, concatenation of chunks, and the decimal
 * rendering of an integer inside a template literal.
 */
module Text {
  import opened Wrappers

  /** `s.startsWith(p)` */
  predicate StartsWith(s: string, p: string) {
    |p| <= |s| && s[..|p|] == p
  }

  /** `s.endsWith(p)` */
  predicate EndsWith(s: string, p: string) {
    |p| <= |s| && s[|s| - |p|..] == p
  }

  /** True when `p` occurs in `s` starting at index `i`. */
  predicate OccursAt(s: string, p: string, i: nat) {
    i + |p| <= |s| && s[i..i + |p|] == p
  }

  /** `s.indexOf(p)`, as an option: the first index at which `p` occurs. */
  function IndexOf(s: string, p: string): (r: Option<int>)
    ensures r.Some? ==> 0 <= r.value && OccursAt(s, p, r.value)
    ensures r.Some? ==> forall j :: 0 <= j < r.value ==> !OccursAt(s, p, j)
    ensures r.None? ==> forall j :: 0 <= j <= |s| ==> !OccursAt(s, p, j)
  {
    IndexFrom(s, p, 0)
  }

  function IndexFrom(s: string, p: string, i: nat): (r: Option<int>)
    requires i <= |s| + 1
    requires forall j :: 0 <= j < i ==> !OccursAt(s, p, j)
    ensures r.Some? ==> i <= r.value && OccursAt(s, p, r.value)
    ensures r.Some? ==> forall j :: 0 <= j < r.value ==> !OccursAt(s, p, j)
    ensures r.None? ==> forall j :: 0 <= j <= |s| ==> !OccursAt(s, p, j)
    decreases |s| + 1 - i
  {
    if i > |s| then None
    else if OccursAt(s, p, i) then Some(i)
    else IndexFrom(s, p, i + 1)
  }

  /** `s.replace(p, q)` with a string pattern: only the first occurrence is replaced. */
  function ReplaceFirst(s: string, p: string, q: string): (r: string)
  {
    match IndexOf(s, p)
    case None => s
    case Some(i) => s[..i] + q + s[i + |p|..]
  }

  /** `parts.join(sep)` */
  function Join(parts: seq<string>, sep: string): string {
    if |parts| == 0 then ""
    else if |parts| == 1 then parts[0]
    else parts[0] + sep + Join(parts[1..], sep)
  }

  /** Concatenation of chunks in arrival order (`Buffer.concat(chunks)`). */
  function Concat(chunks: seq<string>): string {
    if |chunks| == 0 then "" else Concat(chunks[..|chunks| - 1]) + chunks[|chunks| - 1]
  }

  lemma {:induction false} ConcatAppend(chunks: seq<string>, c: string)
    ensures Concat(chunks + [c]) == Concat(chunks) + c
  {
    assert (chunks + [c])[..|chunks|] == chunks;
  }

  predicate IsDigit(c: char) {
    '0' <= c <= '9'
  }

  function Digit(d: nat): (c: char)
    requires d < 10
    ensures IsDigit(c)
  {
    "0123456789"[d]
  }

  function DigitValue(c: char): (d: nat)
    requires IsDigit(c)
    ensures d < 10
  {
    (c as int - '0' as int) as nat
  }

  lemma DigitRoundTrip(d: nat)
    requires d < 10
    ensures DigitValue(Digit(d)) == d
  {
  }

  /** Decimal rendering of a natural number, most significant digit first. */
  function NatToString(n: nat): (s: string)
    ensures |s| > 0
    ensures forall i :: 0 <= i < |s| ==> IsDigit(s[i])
  {
    if n < 10 then [Digit(n)] else NatToString(n / 10) + [Digit(n % 10)]
  }

  /** The number a string of decimal digits denotes. */
  function ParseNat(s: string): nat
    requires forall i :: 0 <= i < |s| ==> IsDigit(s[i])
  {
    if |s| == 0 then 0 else ParseNat(s[..|s| - 1]) * 10 + DigitValue(s[|s| - 1])
  }

  lemma {:induction false} NatToStringRoundTrip(n: nat)
    ensures ParseNat(NatToString(n)) == n
  {
    var s := NatToString(n);
    if n < 10 {
      DigitRoundTrip(n);
    } else {
      NatToStringRoundTrip(n / 10);
      assert s[..|s| - 1] == NatToString(n / 10);
      DigitRoundTrip(n % 10);
    }
  }

  /** `${n}` for an integer `n` (JavaScript prints integers below 10^21 in plain decimal). */
  function IntToString(n: int): (s: string)
    ensures |s| > 0
  {
    if n < 0 then "-" + NatToString(-n) else NatToString(n)
  }

  /** Number of decimal digits at the end of `s`. */
  function TrailingDigitCount(s: string): (k: nat)
    ensures k <= |s|
    ensures forall i :: |s| - k <= i < |s| ==> IsDigit(s[i])
  {
    if |s| > 0 && IsDigit(s[|s| - 1]) then 1 + TrailingDigitCount(s[..|s| - 1]) else 0
  }

  /**
   * The integer written at the very end of `s`: its trailing digits, negated
   * when a minus sign stands right before them.
   */
  function TrailingInt(s: string): int {
    var k := TrailingDigitCount(s);
    var v: int := ParseNat(s[|s| - k..]);
    if k < |s| && s[|s| - k - 1] == '-' then -v else v
  }

  /** A text after which an appended number is read back on its own. */
  predicate Delimits(p: string) {
    |p| > 0 && !IsDigit(p[|p| - 1]) && p[|p| - 1] != '-'
  }

  lemma {:induction false} TrailingDigitCountAppend(p: string, d: string)
    requires |p| == 0 || !IsDigit(p[|p| - 1])
    requires forall i :: 0 <= i < |d| ==> IsDigit(d[i])
    ensures TrailingDigitCount(p + d) == |d|
    decreases |d|
  {
    if |d| == 0 {
      assert p + d == p;
    } else {
      var d' := d[..|d| - 1];
      assert (p + d)[..|p + d| - 1] == p + d';
      TrailingDigitCountAppend(p, d');
    }
  }

  /** Reading back the number at the end of `p + ${n}` yields `n`. */
  lemma TrailingIntAppend(p: string, n: int)
    requires Delimits(p)
    ensures TrailingInt(p + IntToString(n)) == n
  {
    if n < 0 {
      TrailingIntNegative(p, -n);
    } else {
      TrailingIntAppendDigits(p, n);
    }
  }

  lemma TrailingIntNegative(p: string, m: nat)
    requires Delimits(p) && m > 0
    ensures TrailingInt(p + IntToString(-(m as int))) == -(m as int)
  {
    assert p + IntToString(-(m as int)) == (p + "-") + NatToString(m);
    TrailingIntAppendDigits(p + "-", m);
  }

  lemma TrailingIntAppendDigits(p: string, m: nat)
    requires |p| > 0 && !IsDigit(p[|p| - 1])
    ensures var s := p + NatToString(m);
            var k := TrailingDigitCount(s);
            k == |NatToString(m)| && ParseNat(s[|s| - k..]) == m && s[|s| - k - 1] == p[|p| - 1]
  {
    var d := NatToString(m);
    var s := p + d;
    TrailingDigitCountAppend(p, d);
    assert s[|s| - |d|..] == d;
    NatToStringRoundTrip(m);
  }

  /** The number at the end of `p + ${n} + q`, once the known suffix `q` is dropped. */
  lemma TrailingIntBeforeSuffix(p: string, n: int, q: string)
    requires Delimits(p)
    ensures var s := p + IntToString(n) + q;
            EndsWith(s, q) && TrailingInt(s[..|s| - |q|]) == n
  {
    var s := p + IntToString(n) + q;
    assert s[..|s| - |q|] == p + IntToString(n);
    TrailingIntAppend(p, n);
  }
}
