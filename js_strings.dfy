/**
 * The few pieces of JavaScript string semantics the handler relies on:
 * the line terminators that a regular-expression `.` refuses, the digits
 * of `\d`, the white space removed by `String.prototype.trim`, and the
 * decimal rendering of an integer in a template literal.
 */
module JsStrings {

  /** `p` is a prefix of `s`. */
  predicate StartsWith(s: string, p: string) {
    |p| <= |s| && s[..|p|] == p
  }

  /** The four characters that `.` does not match outside dot-all mode. */
  predicate IsLineTerminator(c: char) {
    c == '\n' || c == '\r' || c == '\U{2028}' || c == '\U{2029}'
  }

  predicate NoLineTerminator(s: string) {
    forall k :: 0 <= k < |s| ==> !IsLineTerminator(s[k])
  }

  /** The characters matched by `\d`: ASCII digits only. */
  predicate IsDigit(c: char) {
    '0' <= c <= '9'
  }

  predicate AllDigits(s: string) {
    forall k :: 0 <= k < |s| ==> IsDigit(s[k])
  }

  /** White space and line terminators, the characters `trim` removes. */
  predicate IsTrimmable(c: char) {
    || c == '\t' || c == '\U{000B}' || c == '\U{000C}' || c == ' '
    || c == '\U{00A0}' || c == '\U{FEFF}' || c == '\U{1680}'
    || ('\U{2000}' <= c <= '\U{200A}')
    || c == '\U{202F}' || c == '\U{205F}' || c == '\U{3000}'
    || IsLineTerminator(c)
  }

  predicate AllTrimmable(s: string) {
    forall k :: 0 <= k < |s| ==> IsTrimmable(s[k])
  }

  /** The first index at or after `from` that holds a line terminator, or `|s|`. */
  function LineEnd(s: string, from: nat): (e: nat)
    requires from <= |s|
    ensures from <= e <= |s|
    ensures forall k :: from <= k < e ==> !IsLineTerminator(s[k])
    ensures e < |s| ==> IsLineTerminator(s[e])
    decreases |s| - from
  {
    if from == |s| || IsLineTerminator(s[from]) then from else LineEnd(s, from + 1)
  }

  /** A line that has no terminator up to and including `q` ends after `q`. */
  lemma {:induction false} LineEndBeyond(s: string, from: nat, q: nat)
    requires from <= q < |s|
    requires forall k :: from <= k <= q ==> !IsLineTerminator(s[k])
    ensures q < LineEnd(s, from)
    decreases q - from
  {
    if from < q {
      LineEndBeyond(s, from + 1, q);
    }
  }

  /** The end of the longest run of digits that starts at `from`. */
  function DigitRunEnd(s: string, from: nat): (e: nat)
    requires from <= |s|
    ensures from <= e <= |s|
    ensures AllDigits(s[from..e])
    ensures e < |s| ==> !IsDigit(s[e])
    decreases |s| - from
  {
    if from == |s| || !IsDigit(s[from]) then from
    else
      var e := DigitRunEnd(s, from + 1);
      assert s[from..e] == [s[from]] + s[from + 1..e];
      e
  }

  /** A run of digits from `from` to `z` ends no later than the longest one. */
  lemma {:induction false} DigitRunReaches(s: string, from: nat, z: nat)
    requires from <= z <= |s|
    requires forall k :: from <= k < z ==> IsDigit(s[k])
    ensures z <= DigitRunEnd(s, from)
    decreases z - from
  {
    if from < z {
      DigitRunReaches(s, from + 1, z);
    }
  }

  /** The number of leading characters of `s` that `trim` removes. */
  function LeadingTrimmable(s: string): (a: nat)
    ensures a <= |s|
    ensures AllTrimmable(s[..a])
    ensures a < |s| ==> !IsTrimmable(s[a])
  {
    if s == [] || !IsTrimmable(s[0]) then 0
    else
      var a := 1 + LeadingTrimmable(s[1..]);
      assert s[..a] == [s[0]] + s[1..][..a - 1];
      a
  }

  /** The length of `s` once its trailing trimmable characters are removed. */
  function TrailingTrimmed(s: string): (b: nat)
    ensures b <= |s|
    ensures AllTrimmable(s[b..])
    ensures b > 0 ==> !IsTrimmable(s[b - 1])
  {
    if s == [] || !IsTrimmable(s[|s| - 1]) then |s|
    else
      var b := TrailingTrimmed(s[..|s| - 1]);
      assert s[b..] == s[..|s| - 1][b..] + [s[|s| - 1]];
      b
  }

  /**
   * `String.prototype.trim`: the input is the result with trimmable
   * characters on either side, and the result neither starts nor ends
   * with one.
   */
  function Trim(s: string): (r: string)
    ensures |r| <= |s|
    ensures exists lead, trail :: s == lead + r + trail && AllTrimmable(lead) && AllTrimmable(trail)
    ensures r != [] ==> !IsTrimmable(r[0]) && !IsTrimmable(r[|r| - 1])
  {
    var a := LeadingTrimmable(s);
    var rest := s[a..];
    var b := TrailingTrimmed(rest);
    var lead, mid, trail := s[..a], rest[..b], rest[b..];
    assert s == lead + mid + trail by {
      assert rest == mid + trail;
    }
    assert AllTrimmable(lead) && AllTrimmable(trail);
    assert mid != [] ==> mid[0] == s[a] && mid[|mid| - 1] == rest[b - 1];
    mid
  }

  /** Any string with no trimmable character at either end is its own trim. */
  lemma TrimOfTrimmed(s: string)
    requires s != [] ==> !IsTrimmable(s[0]) && !IsTrimmable(s[|s| - 1])
    ensures Trim(s) == s
  {
    var a := LeadingTrimmable(s);
    if s != [] {
      assert a == 0;
    }
    assert s[a..] == s;
  }

  /** Trimming twice is trimming once. */
  lemma TrimIdempotent(s: string)
    ensures Trim(Trim(s)) == Trim(s)
  {
    TrimOfTrimmed(Trim(s));
  }

  function DigitChar(d: nat): (c: char)
    requires d < 10
    ensures IsDigit(c)
  {
    "0123456789"[d]
  }

  /** The decimal digits of a natural number, without leading zeros. */
  function NatToDecimal(n: nat): (s: string)
    ensures |s| > 0 && AllDigits(s)
  {
    if n < 10 then [DigitChar(n)] else NatToDecimal(n / 10) + [DigitChar(n % 10)]
  }

  /** The number a string of decimal digits denotes. */
  function DecimalValue(s: string): nat
    requires AllDigits(s)
  {
    if s == [] then 0 else 10 * DecimalValue(s[..|s| - 1]) + (s[|s| - 1] as int - '0' as int)
  }

  /** The rendering denotes the number rendered, and has no leading zero. */
  lemma {:induction false} NatToDecimalValue(n: nat)
    ensures DecimalValue(NatToDecimal(n)) == n
    ensures NatToDecimal(n)[0] == '0' ==> n == 0
  {
    var s := NatToDecimal(n);
    if n >= 10 {
      NatToDecimalValue(n / 10);
      assert s[..|s| - 1] == NatToDecimal(n / 10);
      assert s[0] == NatToDecimal(n / 10)[0];
    }
  }

  /** How a template literal renders an integer: a minus sign, then the digits. */
  function IntToDecimal(n: int): (s: string)
    ensures |s| > 0
    ensures s[0] == '-' <==> n < 0
  {
    if n < 0 then "-" + NatToDecimal(-n) else NatToDecimal(n)
  }

  function Pow10(k: nat): (p: nat)
    ensures p >= 1
  {
    if k == 0 then 1 else 10 * Pow10(k - 1)
  }

  /**
   * The first digit of a natural number's rendering is '2' exactly when the
   * number lies in a range [2 * 10^k, 3 * 10^k).
   */
  lemma {:induction false} LeadsWithTwo(n: nat)
    ensures NatToDecimal(n)[0] == '2' <==> exists k: nat :: 2 * Pow10(k) <= n < 3 * Pow10(k)
  {
    if n < 10 {
      SingleDigitRange(n);
    } else {
      LeadsWithTwo(n / 10);
      assert NatToDecimal(n)[0] == NatToDecimal(n / 10)[0];
      RangeOfTenth(n);
    }
  }

  /** A single digit lies in such a range only when it is 2 itself. */
  lemma SingleDigitRange(n: nat)
    requires n < 10
    ensures (exists k: nat :: 2 * Pow10(k) <= n < 3 * Pow10(k)) <==> n == 2
  {
    if n == 2 {
      assert 2 * Pow10(0) <= n < 3 * Pow10(0);
    }
    forall k: nat | 2 * Pow10(k) <= n < 3 * Pow10(k) ensures n == 2 {
      if k > 0 {
        Pow10Grows(k);
      }
    }
  }

  /** A number of two or more digits lies in such a range when its tenth does. */
  lemma RangeOfTenth(n: nat)
    requires n >= 10
    ensures (exists k: nat :: 2 * Pow10(k) <= n < 3 * Pow10(k))
        <==> (exists k: nat :: 2 * Pow10(k) <= n / 10 < 3 * Pow10(k))
  {
    if k: nat :| 2 * Pow10(k) <= n / 10 < 3 * Pow10(k) {
      DivTenRange(n, Pow10(k));
      assert Pow10(k + 1) == 10 * Pow10(k);
      assert 2 * Pow10(k + 1) <= n < 3 * Pow10(k + 1);
    }
    if k: nat :| 2 * Pow10(k) <= n < 3 * Pow10(k) {
      assert k > 0;
      var j: nat := k - 1;
      assert Pow10(k) == 10 * Pow10(j);
      DivTenRange(n, Pow10(j));
      assert 2 * Pow10(j) <= n / 10 < 3 * Pow10(j);
    }
  }

  lemma DivTenRange(n: nat, p: nat)
    ensures (20 * p <= n < 30 * p) <==> (2 * p <= n / 10 < 3 * p)
  {
    var q, r := n / 10, n % 10;
    assert n == 10 * q + r && 0 <= r < 10;
  }

  lemma {:induction false} Pow10Grows(k: nat)
    requires k > 0
    ensures Pow10(k) >= 10
  {
    if k > 1 {
      Pow10Grows(k - 1);
    }
  }
}
