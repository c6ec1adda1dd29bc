/**
 * An independent reading of dsl_compare_version: on versions written as decimal numbers
 * separated by single dots, it compares the number sequences left to right, with missing
 * trailing numbers counting as zero.
 */
module VersionOrder {
  import Text
  import opened Dsl

  /** number ('.' number)*, every number below the saturation value of strtoumax. */
  predicate WellFormed(v: string)
    decreases |v|
  {
    var d := Text.Span(v, Text.Digits);
    0 < d && Text.DecimalValue(v[..d]) < NumMax &&
    (d == |v| || (v[d] == '.' && WellFormed(v[d + 1..])))
  }

  /** The numbers of a well-formed version, or none for the empty string. */
  function Numbers(v: string): seq<nat>
    requires v == [] || WellFormed(v)
    decreases |v|
  {
    if v == [] then []
    else
      var d := Text.Span(v, Text.Digits);
      [Text.DecimalValue(v[..d])] + (if d == |v| then [] else Numbers(v[d + 1..]))
  }

  /** Sign of the comparison of two number sequences padded with zeros. */
  function LexCompare(a: seq<nat>, b: seq<nat>): int
    decreases |a| + |b|
  {
    if a == [] && b == [] then 0
    else
      var x := if a == [] then 0 else a[0];
      var y := if b == [] then 0 else b[0];
      if x < y then -1
      else if x > y then 1
      else LexCompare(if a == [] then [] else a[1..], if b == [] then [] else b[1..])
  }

  /** Whether a comparator accepts a comparison sign, as 1 or 0. */
  function Holds(cmp: Comparator, sign: int): int
  {
    var b := match cmp
      case Equal => sign == 0
      case NotEqual => sign != 0
      case Less => sign < 0
      case LessEqual => sign <= 0
      case Greater => sign > 0
      case GreaterEqual => sign >= 0;
    if b then 1 else 0
  }

  predicate AllZero(a: seq<nat>)
  {
    forall k :: 0 <= k < |a| ==> a[k] == 0
  }

  lemma {:induction false} LexCompareEmpty(b: seq<nat>)
    ensures LexCompare([], b) == (if AllZero(b) then 0 else -1)
    ensures LexCompare(b, []) == (if AllZero(b) then 0 else 1)
    decreases |b|
  {
    if b != [] {
      LexCompareEmpty(b[1..]);
      if b[0] == 0 {
        assert AllZero(b) <==> AllZero(b[1..]) by {
          if AllZero(b[1..]) {
            forall k | 0 <= k < |b| ensures b[k] == 0 {
              if k > 0 { assert b[k] == b[1..][k - 1]; }
            }
          }
        }
      }
    }
  }

  /** A digit string has value zero exactly when it is all zeros. */
  lemma {:induction false} DecimalZero(s: string)
    requires Text.AllDigits(s)
    ensures Text.DecimalValue(s) == 0 <==> forall k :: 0 <= k < |s| ==> s[k] == '0'
    decreases |s|
  {
    if s != [] {
      DecimalZero(s[..|s| - 1]);
    }
  }

  /**
   * Only dots and zeros remain exactly when every number is zero: the trailing-zero rule
   * of dsl_compare_version ignores just the components a numeric reading ignores.
   */
  lemma {:induction false} ZerosOnly(v: string)
    requires v == [] || WellFormed(v)
    ensures Text.Span(v, ZeroOrDot) == |v| <==> AllZero(Numbers(v))
    decreases |v|
  {
    if v != [] {
      var d := Text.Span(v, Text.Digits);
      var head := v[..d];
      DecimalZero(head);
      assert (forall k :: 0 <= k < |head| ==> head[k] == '0') <==> (forall k :: 0 <= k < d ==> v[k] == '0') by {
        assert forall k :: 0 <= k < d ==> head[k] == v[k];
      }
      var rest := if d == |v| then [] else v[d + 1..];
      if d < |v| {
        ZerosOnly(rest);
      }
      AllCharsIn(v, d);
      AllZeroCons(Text.DecimalValue(head), Numbers(rest));
    }
  }

  lemma AllZeroCons(x: nat, r: seq<nat>)
    ensures AllZero([x] + r) <==> x == 0 && AllZero(r)
  {
    if AllZero([x] + r) {
      assert ([x] + r)[0] == x;
      forall k | 0 <= k < |r| ensures r[k] == 0 {
        assert r[k] == ([x] + r)[k + 1];
      }
    }
    if x == 0 && AllZero(r) {
      forall k | 0 <= k < |[x] + r| ensures ([x] + r)[k] == 0 {
        if k > 0 { assert ([x] + r)[k] == r[k - 1]; }
      }
    }
  }

  /** The whole string is zeros and dots exactly when its head and its rest are. */
  lemma AllCharsIn(v: string, d: nat)
    requires 0 < d <= |v| && (d < |v| ==> v[d] == '.')
    requires forall k :: 0 <= k < d ==> v[k] in Text.Digits
    ensures Text.Span(v, ZeroOrDot) == |v| <==>
      (forall k :: 0 <= k < d ==> v[k] == '0') &&
      (d == |v| || Text.Span(v[d + 1..], ZeroOrDot) == |v[d + 1..]|)
  {
    var all := forall k :: 0 <= k < |v| ==> v[k] in ZeroOrDot;
    assert Text.Span(v, ZeroOrDot) == |v| <==> all by {
      if all { Text.SpanIs(v, ZeroOrDot, |v|); }
    }
    if d < |v| {
      var rest := v[d + 1..];
      assert Text.Span(rest, ZeroOrDot) == |rest| <==> forall k :: 0 <= k < |rest| ==> rest[k] in ZeroOrDot by {
        if forall k :: 0 <= k < |rest| ==> rest[k] in ZeroOrDot { Text.SpanIs(rest, ZeroOrDot, |rest|); }
      }
      if (forall k :: 0 <= k < d ==> v[k] == '0') && (forall k :: 0 <= k < |rest| ==> rest[k] in ZeroOrDot) {
        forall k | 0 <= k < |v| ensures v[k] in ZeroOrDot {
          if k > d { assert v[k] == rest[k - d - 1]; }
        }
      }
      if all {
        forall k | 0 <= k < |rest| ensures rest[k] in ZeroOrDot {
          assert rest[k] == v[k + d + 1];
        }
      }
    }
  }

  /** A well-formed version passes the character check of dsl_compare_version. */
  lemma {:induction false} WellFormedChars(v: string)
    requires WellFormed(v)
    ensures forall k :: 0 <= k < |v| ==> v[k] in VersionChars
    decreases |v|
  {
    var d := Text.Span(v, Text.Digits);
    if d < |v| {
      WellFormedChars(v[d + 1..]);
      forall k | d + 1 <= k < |v| ensures v[k] in VersionChars {
        assert v[k] == v[d + 1..][k - d - 1];
      }
    }
  }

  /** The first component of a well-formed version, as strtoumax reads it. */
  lemma ComponentValue(v: string)
    requires WellFormed(v)
    ensures var n := Text.Span(v, Text.Digits);
      0 < n && Text.DecimalValue(v[..n]) < NumMax && Text.StrToUMax(v) == (Text.DecimalValue(v[..n]), n)
  {
    Text.StrToUMaxDigitLead(v);
  }

  /** A single dot before a digit is all that SkipDots removes. */
  lemma SkipOneDot(t: string)
    requires 2 <= |t| && t[0] == '.' && t[1] in Text.Digits
    ensures SkipDots(t) == t[1..]
  {
    Text.SpanIs(t, {'.'}, 1);
  }

  /** What follows the first component once its dot is skipped. */
  lemma ComponentRest(v: string)
    requires WellFormed(v)
    ensures var d := Text.Span(v, Text.Digits);
      SkipDots(v[d..]) == (if d == |v| then [] else v[d + 1..])
  {
    var d := Text.Span(v, Text.Digits);
    if d < |v| {
      var rest := v[d + 1..];
      assert v[d] == '.' && WellFormed(rest);
      assert 0 < Text.Span(rest, Text.Digits);
      var tail := v[d..];
      assert tail[1..] == rest;
      SkipOneDot(tail);
    } else {
      assert v[d..] == [];
      Text.SpanIs([], {'.'}, 0);
    }
  }

  lemma ComponentNumbers(v: string)
    requires WellFormed(v)
    ensures var d := Text.Span(v, Text.Digits);
      SkipDots(v[d..]) == [] || WellFormed(SkipDots(v[d..]))
    ensures var d := Text.Span(v, Text.Digits);
      Numbers(v) == [Text.DecimalValue(v[..d])] + Numbers(SkipDots(v[d..]))
  {
    ComponentRest(v);
  }

  lemma LexCompareCons(x: nat, y: nat, a: seq<nat>, b: seq<nat>)
    ensures LexCompare([x] + a, [y] + b) == if x < y then -1 else if x > y then 1 else LexCompare(a, b)
  {
    assert ([x] + a)[1..] == a && ([y] + b)[1..] == b;
  }

  /** When an operand is used up, only zero components can remain on the other side. */
  lemma WalkIsNumericEnd(v1: string, cmp: Comparator, v2: string)
    requires v1 == [] || v2 == []
    requires v1 == [] || WellFormed(v1)
    requires v2 == [] || WellFormed(v2)
    ensures Walk(v1, cmp, v2) == Holds(cmp, LexCompare(Numbers(v1), Numbers(v2)))
  {
    ZerosOnly(v1);
    ZerosOnly(v2);
    WalkEnd(v1, cmp, v2);
    if v1 == [] {
      LexCompareEmpty(Numbers(v2));
    } else {
      LexCompareEmpty(Numbers(v1));
    }
  }

  /** The first number of a well-formed operand and what follows it, as the walk reads them. */
  lemma HeadOf(v: string, n: nat, rest: string)
    requires WellFormed(v)
    requires n == Text.DecimalValue(v[..Text.Span(v, Text.Digits)])
    requires rest == SkipDots(v[Text.Span(v, Text.Digits)..])
    ensures Text.StrToUMax(v) == (n, Text.Span(v, Text.Digits)) && 0 < Text.StrToUMax(v).1 && n < NumMax
    ensures rest == [] || WellFormed(rest)
    ensures |rest| < |v|
    ensures Numbers(v) == [n] + Numbers(rest)
  {
    ComponentValue(v);
    ComponentNumbers(v);
  }

  /** Components that differ decide the walk as they decide the numeric comparison. */
  lemma WalkDiffers(v1: string, cmp: Comparator, v2: string, n1: nat, n2: nat, r1: seq<nat>, r2: seq<nat>)
    requires v1 != [] && v2 != [] && n1 != n2 && n1 < NumMax && n2 < NumMax
    requires Text.StrToUMax(v1).0 == n1 && Text.StrToUMax(v1).1 > 0
    requires Text.StrToUMax(v2).0 == n2 && Text.StrToUMax(v2).1 > 0
    ensures Walk(v1, cmp, v2) == Holds(cmp, LexCompare([n1] + r1, [n2] + r2))
  {
    WalkCases(v1, cmp, v2);
    LexCompareCons(n1, n2, r1, r2);
  }

  /**
   * The walk of dsl_compare_version over well-formed operands decides exactly what the
   * zero-padded numeric comparison of their components decides.
   */
  lemma {:induction false} WalkIsNumeric(v1: string, cmp: Comparator, v2: string)
    requires v1 == [] || WellFormed(v1)
    requires v2 == [] || WellFormed(v2)
    ensures Walk(v1, cmp, v2) == Holds(cmp, LexCompare(Numbers(v1), Numbers(v2)))
    decreases |v1|
  {
    if v1 == [] || v2 == [] {
      WalkIsNumericEnd(v1, cmp, v2);
    } else {
      var d1 := Text.Span(v1, Text.Digits);
      var d2 := Text.Span(v2, Text.Digits);
      var n1, n2 := Text.DecimalValue(v1[..d1]), Text.DecimalValue(v2[..d2]);
      var rest1, rest2 := SkipDots(v1[d1..]), SkipDots(v2[d2..]);
      HeadOf(v1, n1, rest1);
      HeadOf(v2, n2, rest2);
      if n1 != n2 {
        WalkDiffers(v1, cmp, v2, n1, n2, Numbers(rest1), Numbers(rest2));
      } else {
        WalkUnfold(v1, cmp, v2);
        LexCompareCons(n1, n2, Numbers(rest1), Numbers(rest2));
        WalkIsNumeric(rest1, cmp, rest2);
      }
    }
  }

  /**
   * dsl_compare_version on two well-formed versions: 1 when the comparator accepts the
   * zero-padded numeric comparison, 0 when it does not; never -1.
   */
  lemma CompareVersionIsNumeric(v1: string, cmp: Comparator, v2: string)
    requires WellFormed(v1) && WellFormed(v2)
    ensures CompareVersion(v1, cmp, v2) == Holds(cmp, LexCompare(Numbers(v1), Numbers(v2)))
  {
    WellFormedChars(v1);
    WellFormedChars(v2);
    Text.SpanIs(v1, VersionChars, |v1|);
    Text.SpanIs(v2, VersionChars, |v2|);
    WalkIsNumeric(v1, cmp, v2);
  }
}
