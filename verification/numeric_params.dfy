/**
 * The query-parameter normaliser of the client (crud-app/src/lib/utils.ts):
 * `isNumericString`, which accepts the strings of the pattern
 * `^[+-]?(\d+\.?\d*|\.\d+)([eE][+-]?\d+)?$`, and `convertToNumObjProps`,
 * which turns every such value of an object into a number.
 */
module NumericParams {
  import opened TextOps
  import opened ItemTypes

  predicate IsSignChar(c: char) { c == '+' || c == '-' }
  predicate IsExponentChar(c: char) { c == 'e' || c == 'E' }

  /** End of the run of digits that starts at `i`. */
  function DigitRun(s: string, i: nat): (j: nat)
    requires i <= |s|
    ensures i <= j <= |s|
    ensures forall k :: i <= k < j ==> IsDigit(s[k])
    ensures j == |s| || !IsDigit(s[j])
    decreases |s| - i
  {
    if i < |s| && IsDigit(s[i]) then DigitRun(s, i + 1) else i
  }

  /** From `p` on, `s` is empty or an exponent `[eE][+-]?\d+`. */
  predicate ExponentAt(s: string, p: nat)
    requires p <= |s|
  {
    p == |s| ||
    (IsExponentChar(s[p]) &&
     var q := if p + 1 < |s| && IsSignChar(s[p + 1]) then p + 2 else p + 1;
     q < DigitRun(s, q) == |s|)
  }

  /** `isNumericString(str)`, scanning the string once from the left. */
  predicate IsNumericString(s: string)
    ensures IsNumericString(s) ==> exists k :: 0 <= k < |s| && IsDigit(s[k])
  {
    var i := if 0 < |s| && IsSignChar(s[0]) then 1 else 0;
    var d := DigitRun(s, i);
    if i < d then
      assert IsDigit(s[i]);
      var p := if d < |s| && s[d] == '.' then DigitRun(s, d + 1) else d;
      ExponentAt(s, p)
    else
      d < |s| && s[d] == '.' && var f := DigitRun(s, d + 1);
      d + 1 < f && (assert IsDigit(s[d + 1]); ExponentAt(s, f))
  }

  // ---------------------------------------------------------------------
  // The pattern, part by part.

  /** `[+-]?` */
  ghost predicate SignPart(t: string) {
    t == [] || (|t| == 1 && IsSignChar(t[0]))
  }

  /** `\d+\.?\d*` with the dot (if any) at `k`. */
  ghost predicate DigitsFirstAt(m: string, k: int) {
    0 < k <= |m| && AllDigits(m[..k]) && (k == |m| || (m[k] == '.' && AllDigits(m[k + 1..])))
  }

  /** `\d+\.?\d*|\.\d+` */
  ghost predicate MantissaPart(m: string) {
    (exists k :: DigitsFirstAt(m, k)) || (1 < |m| && m[0] == '.' && AllDigits(m[1..]))
  }

  /** `[+-]?\d+` */
  ghost predicate SignedDigits(t: string) {
    (0 < |t| && AllDigits(t)) || (1 < |t| && IsSignChar(t[0]) && AllDigits(t[1..]))
  }

  /** `([eE][+-]?\d+)?` */
  ghost predicate ExponentPart(e: string) {
    e == [] || (IsExponentChar(e[0]) && SignedDigits(e[1..]))
  }

  /** `s` splits at `a <= b` into sign, mantissa and exponent. */
  ghost predicate SplitsAt(s: string, a: int, b: int) {
    0 <= a <= b <= |s| && SignPart(s[..a]) && MantissaPart(s[a..b]) && ExponentPart(s[b..])
  }

  /** `s` matches the whole pattern. */
  ghost predicate MatchesNumericPattern(s: string) {
    exists a, b :: SplitsAt(s, a, b)
  }

  // ---------------------------------------------------------------------
  // The scanner accepts exactly the strings of the pattern.

  lemma DigitRunExact(s: string, i: nat, j: nat)
    requires i <= j <= |s|
    requires forall k :: i <= k < j ==> IsDigit(s[k])
    requires j == |s| || !IsDigit(s[j])
    ensures DigitRun(s, i) == j
    decreases j - i
  {
    if i < j { DigitRunExact(s, i + 1, j); }
  }

  lemma ExponentAtMatches(s: string, p: nat)
    requires p <= |s|
    ensures ExponentAt(s, p) <==> ExponentPart(s[p..])
  {
    if p < |s| && IsExponentChar(s[p]) {
      var e := s[p..];
      var t := e[1..];
      assert t == s[p + 1..];
      var q := if p + 1 < |s| && IsSignChar(s[p + 1]) then p + 2 else p + 1;
      if SignedDigits(t) {
        if 0 < |t| && AllDigits(t) {
          assert !IsSignChar(s[p + 1]) by { assert IsDigit(t[0]); }
          assert forall k :: q <= k < |s| ==> IsDigit(s[k]) by {
            forall k | q <= k < |s| ensures IsDigit(s[k]) { assert s[k] == t[k - p - 1]; }
          }
          DigitRunExact(s, q, |s|);
        } else {
          assert forall k :: q <= k < |s| ==> IsDigit(s[k]) by {
            forall k | q <= k < |s| ensures IsDigit(s[k]) { assert s[k] == t[k - p - 1]; }
          }
          DigitRunExact(s, q, |s|);
        }
      }
      if ExponentAt(s, p) {
        var r := DigitRun(s, q);
        if q == p + 1 {
          assert AllDigits(t) by {
            forall k | 0 <= k < |t| ensures IsDigit(t[k]) { assert t[k] == s[p + 1 + k]; }
          }
        } else {
          assert AllDigits(t[1..]) by {
            forall k | 0 <= k < |t[1..]| ensures IsDigit(t[1..][k]) { assert t[1..][k] == s[p + 2 + k]; }
          }
        }
      }
    }
  }

  /** Positions `i..j` of `s` are all digits. */
  predicate DigitsBetween(s: string, i: int, j: int)
    requires 0 <= i <= j <= |s|
  {
    forall k :: i <= k < j ==> IsDigit(s[k])
  }

  lemma DigitsBetweenSlice(s: string, i: int, j: int)
    requires 0 <= i <= j <= |s|
    ensures DigitsBetween(s, i, j) <==> AllDigits(s[i..j])
  {
    if AllDigits(s[i..j]) {
      forall k | i <= k < j ensures IsDigit(s[k]) { assert s[k] == s[i..j][k - i]; }
    }
  }

  /** The mantissa the scanner read, from `i` to `p`, is `\d+\.?\d*` or `\.\d+`. */
  lemma ScannedMantissa(s: string, i: nat, p: nat)
    requires i <= p <= |s|
    requires var d := DigitRun(s, i);
      if i < d then p == (if d < |s| && s[d] == '.' then DigitRun(s, d + 1) else d)
      else d < |s| && s[d] == '.' && p == DigitRun(s, d + 1) && d + 1 < p
    ensures MantissaPart(s[i..p])
  {
    var d := DigitRun(s, i);
    var m := s[i..p];
    if i < d {
      DigitsBetweenSlice(s, i, d);
      assert m[..d - i] == s[i..d];
      if p > d {
        assert m[d - i] == s[d];
        DigitsBetweenSlice(s, d + 1, p);
        assert m[d - i + 1..] == s[d + 1..p];
      }
      assert DigitsFirstAt(m, d - i);
    } else {
      assert m[0] == s[d];
      DigitsBetweenSlice(s, d + 1, p);
      assert m[1..] == s[d + 1..p];
    }
  }

  /** Every string the scanner accepts matches the pattern. */
  lemma ScannerAcceptsOnlyPattern(s: string)
    requires IsNumericString(s)
    ensures MatchesNumericPattern(s)
  {
    var i := if 0 < |s| && IsSignChar(s[0]) then 1 else 0;
    var d := DigitRun(s, i);
    var p := if i < d then (if d < |s| && s[d] == '.' then DigitRun(s, d + 1) else d) else DigitRun(s, d + 1);
    assert SignPart(s[..i]);
    ScannedMantissa(s, i, p);
    ExponentAtMatches(s, p);
    assert SplitsAt(s, i, p);
  }

  /** A mantissa `\d+\.?\d*` found between `a` and `b`, with its dot (if any) at `a + k`, is read by the scanner. */
  lemma DigitsFirstScanned(s: string, a: nat, b: nat, k: nat)
    requires a <= b <= |s|
    requires DigitsFirstAt(s[a..b], k)
    requires b == |s| || !IsDigit(s[b])
    requires b == |s| || s[b] != '.'
    ensures DigitRun(s, a) == a + k
    ensures (if a + k < |s| && s[a + k] == '.' then DigitRun(s, a + k + 1) else a + k) == b
  {
    var m := s[a..b];
    assert m[..k] == s[a..a + k];
    DigitsBetweenSlice(s, a, a + k);
    if k == |m| {
      DigitRunExact(s, a, b);
    } else {
      assert s[a + k] == m[k];
      DigitRunExact(s, a, a + k);
      assert m[k + 1..] == s[a + k + 1..b];
      DigitsBetweenSlice(s, a + k + 1, b);
      DigitRunExact(s, a + k + 1, b);
    }
  }

  /** A mantissa `\.\d+` between `a` and `b` is read by the scanner. */
  lemma DotFirstScanned(s: string, a: nat, b: nat)
    requires a < b <= |s|
    requires var m := s[a..b]; 1 < |m| && m[0] == '.' && AllDigits(m[1..])
    requires b == |s| || !IsDigit(s[b])
    ensures DigitRun(s, a) == a
    ensures a < |s| && s[a] == '.' && DigitRun(s, a + 1) == b && a + 1 < b
  {
    var m := s[a..b];
    assert s[a] == m[0];
    DigitRunExact(s, a, a);
    assert m[1..] == s[a + 1..b];
    DigitsBetweenSlice(s, a + 1, b);
    DigitRunExact(s, a + 1, b);
  }

  /** The sign part of a split decides where the scanner starts. */
  lemma SignScanned(s: string, a: int, b: int)
    requires SplitsAt(s, a, b)
    ensures a == (if 0 < |s| && IsSignChar(s[0]) then 1 else 0)
    ensures a < b
    ensures b == |s| || (!IsDigit(s[b]) && s[b] != '.')
  {
    var m := s[a..b];
    assert |m| > 0 by {
      if exists k :: DigitsFirstAt(m, k) {
        var k :| DigitsFirstAt(m, k);
      }
    }
    assert s[a] == m[0];
    assert !IsSignChar(m[0]) by {
      if exists k :: DigitsFirstAt(m, k) {
        var k :| DigitsFirstAt(m, k);
        assert m[..k][0] == m[0];
      }
    }
    if b < |s| {
      assert s[b] == s[b..][0];
    }
  }

  /** Every string of the pattern is accepted by the scanner. */
  lemma PatternAcceptedByScanner(s: string, a: int, b: int)
    requires SplitsAt(s, a, b)
    ensures IsNumericString(s)
  {
    SignScanned(s, a, b);
    ExponentAtMatches(s, b);
    var m := s[a..b];
    if exists k :: DigitsFirstAt(m, k) {
      var k :| DigitsFirstAt(m, k);
      DigitsFirstScanned(s, a, b, k);
    } else {
      DotFirstScanned(s, a, b);
    }
  }

  /** `isNumericString` accepts exactly the strings of the pattern. */
  lemma NumericStringIffPattern(s: string)
    ensures IsNumericString(s) <==> MatchesNumericPattern(s)
  {
    if IsNumericString(s) { ScannerAcceptsOnlyPattern(s); }
    if MatchesNumericPattern(s) {
      var a, b :| SplitsAt(s, a, b);
      PatternAcceptedByScanner(s, a, b);
    }
  }

  // ---------------------------------------------------------------------
  // Consequences.

  predicate IsNumericChar(c: char) {
    IsDigit(c) || IsSignChar(c) || c == '.' || IsExponentChar(c)
  }

  /** An accepted string holds only digits, signs, dots and exponent letters: no whitespace, no other text. */
  lemma NumericStringAlphabet(s: string)
    requires IsNumericString(s)
    ensures s != []
    ensures forall k :: 0 <= k < |s| ==> IsNumericChar(s[k])
  {
    var i := if 0 < |s| && IsSignChar(s[0]) then 1 else 0;
    var d := DigitRun(s, i);
    var p := if i < d then (if d < |s| && s[d] == '.' then DigitRun(s, d + 1) else d) else DigitRun(s, d + 1);
    assert ExponentAt(s, p);
    forall k | 0 <= k < |s| ensures IsNumericChar(s[k]) {
      if k >= p && p < |s| {
        var q := if p + 1 < |s| && IsSignChar(s[p + 1]) then p + 2 else p + 1;
        assert k == p || k + 1 == q || q <= k;
      }
    }
  }

  /** Concrete cases: accepted, including a trailing dot. */
  lemma AcceptedExamples()
    ensures IsNumericString("1.") && IsNumericString("-12.5") && IsNumericString(".5")
  {
    DigitRunExact("1.", 0, 1);
    DigitRunExact("1.", 2, 2);
    DigitRunExact("-12.5", 1, 3);
    DigitRunExact("-12.5", 4, 5);
    DigitRunExact(".5", 0, 0);
    DigitRunExact(".5", 1, 2);
  }

  /** Concrete cases: accepted exponents. */
  lemma AcceptedExponentExamples()
    ensures IsNumericString("+1e10") && IsNumericString("2E-3")
  {
    DigitRunExact("+1e10", 1, 2);
    DigitRunExact("+1e10", 3, 5);
    DigitRunExact("2E-3", 0, 1);
    DigitRunExact("2E-3", 3, 4);
  }

  /** Concrete cases: rejected for want of a digit. */
  lemma RejectedWithoutDigits()
    ensures !IsNumericString("") && !IsNumericString(".") && !IsNumericString("+")
    ensures !IsNumericString("+-1") && !IsNumericString("abc")
  {
  }

  /** Concrete cases: rejected for an unfinished exponent or a second dot. */
  lemma RejectedMalformed()
    ensures !IsNumericString("1e") && !IsNumericString("1e+") && !IsNumericString("1.2.3")
  {
  }

  /** Concrete cases: rejected for surrounding whitespace or trailing text. */
  lemma RejectedPadded()
    ensures !IsNumericString(" 1") && !IsNumericString("1 ") && !IsNumericString("1a")
  {
  }

  /** A rendered integer (as the pagination writes into the URL) is numeric. */
  lemma IntToStringIsNumeric(n: int)
    ensures IsNumericString(IntToString(n))
  {
    var s := IntToString(n);
    var i := if n < 0 then 1 else 0;
    assert forall k :: i <= k < |s| ==> IsDigit(s[k]) by {
      if n < 0 {
        forall k | 1 <= k < |s| ensures IsDigit(s[k]) { assert s[k] == s[1..][k - 1]; }
      }
    }
    DigitRunExact(s, i, |s|);
  }

  // ---------------------------------------------------------------------
  // convertToNumObjProps

  /**
   * `convertToNumObjProps(data)`: the same keys in the same order; a value
   * becomes a number (read by `toNumber`, standing for `Number(value)`)
   * exactly when `isNumericString` accepts it, and is kept as a string
   * otherwise.
   */
  function ConvertToNumObjProps(data: seq<(string, string)>, toNumber: string -> real): (r: QueryParams)
    ensures |r| == |data|
    ensures forall k :: 0 <= k < |data| ==> r[k].key == data[k].0
    ensures forall k :: 0 <= k < |data| ==>
      (r[k].value.NumValue? <==> IsNumericString(data[k].1))
    ensures forall k :: 0 <= k < |data| ==>
      if IsNumericString(data[k].1) then r[k].value.n == toNumber(data[k].1)
      else r[k].value == StrValue(data[k].1)
  {
    if data == [] then []
    else
      var (key, value) := data[0];
      var v := if IsNumericString(value) then NumValue(toNumber(value)) else StrValue(value);
      [Param(key, v)] + ConvertToNumObjProps(data[1..], toNumber)
  }
}
