/**
 * String primitives shared by the Go and the C parts of the model: the C library's
 * strspn/strcspn/strsep/strcasecmp/strtoumax and Go's strings package, stated on
 * sequences of characters (ASCII, C locale).
 */
module Text {
  import opened Wrappers

  /** strspn: length of the longest prefix of `s` made of characters in `cs`. */
  function Span(s: string, cs: set<char>): (n: nat)
    ensures n <= |s|
    ensures forall k :: 0 <= k < n ==> s[k] in cs
    ensures n < |s| ==> s[n] !in cs
  {
    if s == [] || s[0] !in cs then 0 else 1 + Span(s[1..], cs)
  }

  /** The span length is determined by the characters before and at it. */
  lemma SpanIs(s: string, cs: set<char>, n: nat)
    requires n <= |s| && forall k :: 0 <= k < n ==> s[k] in cs
    requires n < |s| ==> s[n] !in cs
    ensures Span(s, cs) == n
  {
  }

  /** strcspn: index of the first character of `s` in `cs`, or |s| if there is none. */
  function CSpan(s: string, cs: set<char>): (n: nat)
    ensures n <= |s|
    ensures forall k :: 0 <= k < n ==> s[k] !in cs
    ensures n < |s| ==> s[n] in cs
  {
    if s == [] || s[0] in cs then 0 else 1 + CSpan(s[1..], cs)
  }

  /** The complement span is determined by the characters before and at it. */
  lemma CSpanIs(s: string, cs: set<char>, n: nat)
    requires n <= |s| && forall k :: 0 <= k < n ==> s[k] !in cs
    requires n < |s| ==> s[n] in cs
    ensures CSpan(s, cs) == n
  {
  }

  /** Index of the first `d` in `s` (strchr), or |s| if there is none. */
  function IndexOf(s: string, d: char): (n: nat)
    ensures n <= |s|
    ensures forall k :: 0 <= k < n ==> s[k] != d
    ensures n < |s| ==> s[n] == d
  {
    if s == [] || s[0] == d then 0 else 1 + IndexOf(s[1..], d)
  }

  /** The first-occurrence index is determined by the characters before and at it. */
  lemma IndexOfIs(s: string, d: char, n: nat)
    requires n <= |s| && forall k :: 0 <= k < n ==> s[k] != d
    requires n < |s| ==> s[n] == d
    ensures IndexOf(s, d) == n
  {
  }

  /**
   * strsep repeated until the string is used up (equivalently Go's strings.Split with a
   * one-character separator): the pieces between separators, empty ones included.
   */
  function Split(s: string, d: char): (r: seq<string>)
    ensures |r| >= 1
    decreases |s|
  {
    var i := IndexOf(s, d);
    if i == |s| then [s] else [s[..i]] + Split(s[i + 1..], d)
  }

  /** The pieces strsep still returns from a pointer: none once the pointer is NULL. */
  function Pieces(ptr: Option<string>, d: char): seq<string>
  {
    if ptr.None? then [] else Split(ptr.value, d)
  }

  /** What is left for strsep to consume, counting the terminating position. */
  function Remaining(ptr: Option<string>): nat
  {
    if ptr.None? then 0 else |ptr.value| + 1
  }

  /** One strsep step on a string pointer: the piece before the first `d`, then the rest. */
  lemma PiecesStep(s: string, d: char)
    ensures var i := IndexOf(s, d);
      Pieces(Some(s), d) == [s[..i]] + Pieces(if i == |s| then None else Some(s[i + 1..]), d)
  {
    assert s[..|s|] == s;
  }

  /**
   * strsep(&ptr, d): the text up to the first `d`, the pointer moved past it (NULL when
   * there was no `d`), and NULL for a NULL pointer.
   */
  method Strsep(ptr: Option<string>, d: char) returns (tok: Option<string>, rest: Option<string>)
    ensures tok == SepToken(ptr, d) && rest == SepRest(ptr, d)
    ensures tok.None? <==> ptr.None?
    ensures ptr.None? ==> rest.None?
    ensures ptr.Some? ==> Pieces(ptr, d) == [tok.value] + Pieces(rest, d)
    ensures ptr.Some? ==> d !in tok.value && Remaining(rest) < Remaining(ptr)
  {
    if ptr.None? {
      return None, None;
    }
    var s := ptr.value;
    var i := IndexOf(s, d);
    assert s[..|s|] == s;
    tok := Some(s[..i]);
    rest := if i == |s| then None else Some(s[i + 1..]);
  }

  /** The token strsep(&ptr, d) returns. */
  function SepToken(ptr: Option<string>, d: char): (r: Option<string>)
    ensures r.None? <==> ptr.None?
    ensures r.Some? ==> d !in r.value && r.value <= ptr.value
  {
    if ptr.None? then None else Some(ptr.value[..IndexOf(ptr.value, d)])
  }

  /** Where strsep(&ptr, d) leaves the pointer: past the first `d`, or NULL when there is none. */
  function SepRest(ptr: Option<string>, d: char): (r: Option<string>)
    ensures r.Some? ==> ptr.Some? && |r.value| < |ptr.value|
  {
    if ptr.None? then None
    else
      var i := IndexOf(ptr.value, d);
      if i == |ptr.value| then None else Some(ptr.value[i + 1..])
  }

  /** The pointer after `k` calls of strsep(&ptr, d). */
  function Skip(ptr: Option<string>, d: char, k: nat): Option<string>
    decreases k
  {
    if k == 0 then ptr else Skip(SepRest(ptr, d), d, k - 1)
  }

  /** The token the (k+1)-th call of strsep(&ptr, d) returns. */
  function Token(ptr: Option<string>, d: char, k: nat): Option<string>
  {
    SepToken(Skip(ptr, d, k), d)
  }

  /** One more strsep call moves the pointer one token further. */
  lemma {:induction false} SkipStep(ptr: Option<string>, d: char, k: nat)
    ensures Skip(ptr, d, k + 1) == SepRest(Skip(ptr, d, k), d)
    decreases k
  {
    if k > 0 {
      SkipStep(SepRest(ptr, d), d, k - 1);
    }
  }

  /** strsep on a field followed by the separator returns the field and moves past the separator. */
  lemma FieldStep(a: string, d: char, rest: string)
    requires d !in a
    ensures SepToken(Some(a + [d] + rest), d) == Some(a)
    ensures SepRest(Some(a + [d] + rest), d) == Some(rest)
  {
    var s := a + [d] + rest;
    IndexOfIs(s, d, |a|);
    assert s[..|a|] == a && s[|a| + 1..] == rest;
  }

  /** Skipping past a leading field and its separator leaves the rest to skip through. */
  lemma SkipField(a: string, d: char, rest: string, k: nat)
    requires d !in a
    ensures Skip(Some(a + [d] + rest), d, k + 1) == Skip(Some(rest), d, k)
  {
    FieldStep(a, d, rest);
  }

  /** strsep on a last field returns it whole and leaves NULL. */
  lemma LastField(a: string, d: char)
    requires d !in a
    ensures SepToken(Some(a), d) == Some(a) && SepRest(Some(a), d) == None
  {
    IndexOfIs(a, d, |a|);
    assert a[..|a|] == a;
  }

  /**
   * strchr(ptr, c): from the first `c` on, or NULL when there is none. C leaves strchr(NULL, c)
   * undefined; here a NULL pointer gives NULL.
   */
  function Strchr(ptr: Option<string>, c: char): (r: Option<string>)
    ensures r.Some? ==> ptr.Some? && r.value != [] && r.value[0] == c
  {
    if ptr.None? then None
    else
      var i := IndexOf(ptr.value, c);
      if i == |ptr.value| then None else Some(ptr.value[i..])
  }

  lemma SplitNoSeparator(s: string, d: char)
    requires d !in s
    ensures Split(s, d) == [s]
  {
  }

  /** Split cuts at the first separator, wherever the caller has found it. */
  lemma {:induction false} SplitAt(s: string, d: char, i: nat)
    requires i <= |s| && forall k :: 0 <= k < i ==> s[k] != d
    requires i < |s| ==> s[i] == d
    ensures Split(s, d) == if i == |s| then [s] else [s[..i]] + Split(s[i + 1..], d)
  {
    IndexOfIs(s, d, i);
  }

  /** Splitting a joined string splits each side. */
  lemma {:induction false} SplitConcat(a: string, d: char, b: string)
    ensures Split(a + [d] + b, d) == Split(a, d) + Split(b, d)
    decreases |a|
  {
    var i := IndexOf(a, d);
    if i == |a| {
      SplitConcatLast(a, d, b);
    } else {
      SplitConcat(a[i + 1..], d, b);
      SplitConcatStep(a, d, b, i);
    }
  }

  /** SplitConcat when `a` holds no separator: `a` is the first piece. */
  lemma {:induction false} SplitConcatLast(a: string, d: char, b: string)
    requires IndexOf(a, d) == |a|
    ensures Split(a + [d] + b, d) == Split(a, d) + Split(b, d)
  {
    var s := a + [d] + b;
    forall k | 0 <= k < |a| ensures s[k] != d {
      assert s[k] == a[k];
    }
    SplitAt(s, d, |a|);
    assert s[..|a|] == a && s[|a| + 1..] == b;
  }

  /** SplitConcat's step: the piece before the first separator of `a` comes first. */
  lemma {:induction false} SplitConcatStep(a: string, d: char, b: string, i: nat)
    requires i == IndexOf(a, d) && i < |a|
    requires Split(a[i + 1..] + [d] + b, d) == Split(a[i + 1..], d) + Split(b, d)
    ensures Split(a + [d] + b, d) == Split(a, d) + Split(b, d)
  {
    var x, y := Split(a[i + 1..], d), Split(b, d);
    assert Split(a + [d] + b, d) == [a[..i]] + (x + y) by {
      SplitHead(a, d, b, i);
    }
    assert Split(a, d) == [a[..i]] + x by {
      SplitAt(a, d, i);
    }
    ConsAssoc(a[..i], x, y);
  }

  lemma ConsAssoc<T>(h: T, x: seq<T>, y: seq<T>)
    ensures [h] + (x + y) == [h] + x + y
  {
  }

  /** The first piece of `a + [d] + b` is the one before the first separator of `a`. */
  lemma {:induction false} SplitHead(a: string, d: char, b: string, i: nat)
    requires i == IndexOf(a, d) && i < |a|
    ensures Split(a + [d] + b, d) == [a[..i]] + Split(a[i + 1..] + [d] + b, d)
  {
    var s := a + [d] + b;
    forall k | 0 <= k < i ensures s[k] != d {
      assert s[k] == a[k];
    }
    SplitAt(s, d, i);
    assert s[..i] == a[..i] && s[i + 1..] == a[i + 1..] + [d] + b;
  }

  /** Go's strings.TrimLeft with a one-character cutset. */
  function TrimLeft(s: string, c: char): (r: string)
    ensures r == s[Span(s, {c})..]
  {
    if s != [] && s[0] == c then TrimLeft(s[1..], c) else s
  }

  /** Go's strings.SplitN(s, sep, 2) with a one-character separator. */
  function SplitFirst(s: string, d: char): (r: seq<string>)
    ensures 1 <= |r| <= 2 && d !in r[0]
    ensures |r| == 1 <==> d !in s
    ensures |r| == 1 ==> r[0] == s
    ensures |r| == 2 ==> s == r[0] + [d] + r[1]
  {
    var i := IndexOf(s, d);
    if i == |s| then [s] else [s[..i], s[i + 1..]]
  }

  /** Go's strings.Contains and C's strstr(s, sub) != NULL. */
  predicate Contains(s: string, sub: string)
    decreases |s|
  {
    sub <= s || (s != [] && Contains(s[1..], sub))
  }

  /** A path that is the name, or ends in a slash and the name, contains the name. */
  lemma ContainsLastElement(s: string, name: string)
    requires s == name || HasSuffix(s, "/" + name)
    ensures Contains(s, name)
  {
    if s != name {
      assert s[|s| - |"/" + name|..][1..] == s[|s| - |name|..];
    }
    ContainsSuffix(s, name);
  }

  lemma {:induction false} ContainsSuffix(s: string, sub: string)
    requires |sub| <= |s| && s[|s| - |sub|..] == sub
    ensures Contains(s, sub)
    decreases |s|
  {
    if !(sub <= s) {
      assert s != [];
      assert s[1..][|s| - 1 - |sub|..] == sub;
      ContainsSuffix(s[1..], sub);
    }
  }

  lemma {:induction false} ContainsInside(a: string, sub: string, b: string)
    ensures Contains(a + sub + b, sub)
    decreases |a|
  {
    if a == [] {
      assert sub <= a + sub + b;
    } else {
      assert (a + sub + b)[1..] == a[1..] + sub + b;
      ContainsInside(a[1..], sub, b);
    }
  }

  predicate HasSuffix(s: string, suffix: string)
  {
    |suffix| <= |s| && s[|s| - |suffix|..] == suffix
  }

  /** tolower in the C locale. */
  function Lower(c: char): char
  {
    if 'A' <= c <= 'Z' then (c as int - 'A' as int + 'a' as int) as char else c
  }

  function LowerAll(s: string): (r: string)
    ensures |r| == |s| && forall k :: 0 <= k < |s| ==> r[k] == Lower(s[k])
  {
    seq(|s|, k requires 0 <= k < |s| => Lower(s[k]))
  }

  /** Lowering works character by character, so it distributes over concatenation. */
  lemma LowerConcat(a: string, b: string)
    ensures LowerAll(a + b) == LowerAll(a) + LowerAll(b)
  {
  }

  /** strcasecmp(a, b) == 0. */
  predicate CaseEqual(a: string, b: string)
  {
    LowerAll(a) == LowerAll(b)
  }

  /** strncasecmp(s, p, strlen(p)) == 0: `p` is a prefix of `s` ignoring case. */
  predicate CaseHasPrefix(s: string, p: string)
  {
    LowerAll(p) <= LowerAll(s)
  }

  predicate IsDigit(c: char) { '0' <= c <= '9' }

  predicate AllDigits(s: string) { forall k :: 0 <= k < |s| ==> IsDigit(s[k]) }

  /** The value of a run of decimal digits, most significant first. */
  function DecimalValue(s: string): nat
    requires AllDigits(s)
  {
    if s == [] then 0
    else DecimalValue(s[..|s| - 1]) * 10 + (s[|s| - 1] as int - '0' as int)
  }

  const Digits: set<char> := {'0', '1', '2', '3', '4', '5', '6', '7', '8', '9'}

  /** isspace in the C locale. */
  const CSpaces: set<char> := {' ', '\t', '\n', '\r', 11 as char, 12 as char}

  /**
   * What strtoimax and strtoumax read in base 10: leading white space, an optional sign,
   * then a run of digits. The result says whether the sign was '-', gives the value of
   * the digits and the index where reading stopped, which is 0 when there are no digits.
   */
  function CNumber(s: string): (r: (bool, nat, nat))
    ensures r.2 <= |s|
  {
    var ws := Span(s, CSpaces);
    var signed := ws < |s| && (s[ws] == '+' || s[ws] == '-');
    CDigits(s, if signed then ws + 1 else ws, signed && s[ws] == '-')
  }

  /** The run of digits of `s` from `start`, read as CNumber reports it. */
  function CDigits(s: string, start: nat, negative: bool): (r: (bool, nat, nat))
    requires start <= |s|
    ensures r.2 <= |s|
  {
    var n := Span(s[start..], Digits);
    if n == 0 then (false, 0, 0)
    else
      var digits := s[start..start + n];
      assert forall k :: 0 <= k < n ==> digits[k] == s[start..][k];
      (negative, DecimalValue(digits), start + n)
  }

  const UMaxMax: nat := 0xFFFF_FFFF_FFFF_FFFF

  /**
   * strtoumax(s, &end, 10), and strtoul on LP64: the value read (saturated at UINTMAX_MAX, negated modulo 2^64
   * after a '-') and the index where conversion stopped.
   */
  function StrToUMax(s: string): (r: (nat, nat))
    ensures r.0 <= UMaxMax && r.1 <= |s|
  {
    var (negative, v, end) := CNumber(s);
    var value :=
      if v > UMaxMax then UMaxMax
      else if negative then (UMaxMax + 1 - v) % (UMaxMax + 1)
      else v;
    (value, end)
  }

  /**
   * White space, then a run of digits, then anything that does not continue the run:
   * the digits are read as an unsigned value ending after the run.
   */
  lemma {:induction false} CNumberAfterSpaces(w: string, d: string, rest: string)
    requires forall k :: 0 <= k < |w| ==> w[k] in CSpaces
    requires d != [] && AllDigits(d)
    requires rest != [] ==> rest[0] !in Digits
    ensures CNumber(w + d + rest) == (false, DecimalValue(d), |w| + |d|)
  {
    var s := w + d + rest;
    var t := d + rest;
    SpanBlanks(w, d, rest, s);
    SpanDigits(d, rest, t);
    assert s[|w|..] == t;
    assert s[|w|..|w| + |d|] == d;
    CNumberUnsigned(s, |w|, |d|, t);
  }

  /** The blanks before a digit are the whole white-space span. */
  lemma SpanBlanks(w: string, d: string, rest: string, s: string)
    requires forall k :: 0 <= k < |w| ==> w[k] in CSpaces
    requires d != [] && AllDigits(d) && s == w + d + rest
    ensures Span(s, CSpaces) == |w|
  {
    assert s[|w|] == d[0] && IsDigit(d[0]);
    SpanIs(s, CSpaces, |w|);
  }

  /** A run of digits followed by a non-digit is the whole digit span. */
  lemma SpanDigits(d: string, rest: string, t: string)
    requires AllDigits(d) && (rest != [] ==> rest[0] !in Digits) && t == d + rest
    ensures Span(t, Digits) == |d|
  {
    forall k | 0 <= k < |d| ensures t[k] in Digits {
      assert t[k] == d[k] && IsDigit(d[k]);
    }
    SpanIs(t, Digits, |d|);
  }

  /** Blanks up to `ws`, then `n` > 0 digits: read unsigned, ending after the digits. */
  lemma CNumberUnsigned(s: string, ws: nat, n: nat, t: string)
    requires Span(s, CSpaces) == ws && ws + n <= |s| && 0 < n
    requires t == s[ws..] && Span(t, Digits) == n
    ensures AllDigits(s[ws..ws + n])
    ensures CNumber(s) == (false, DecimalValue(s[ws..ws + n]), ws + n)
  {
    var c := s[ws];
    assert c == s[ws..][0] && c in Digits;
    assert c != '+' && c != '-';
    var signed := ws < |s| && (s[ws] == '+' || s[ws] == '-');
    assert !signed;
    assert CNumber(s) == CDigits(s, ws, false);
    CDigitsIs(s, ws, false, n);
  }

  /** A run of `n` > 0 digits from `start` is read whole. */
  lemma CDigitsIs(s: string, start: nat, negative: bool, n: nat)
    requires start + n <= |s| && 0 < n && Span(s[start..], Digits) == n
    ensures AllDigits(s[start..start + n])
    ensures CDigits(s, start, negative) == (negative, DecimalValue(s[start..start + n]), start + n)
  {
    var run := s[start..start + n];
    forall k | 0 <= k < |run| ensures IsDigit(run[k]) {
      assert run[k] == s[start..][k];
    }
  }

  /** Without a '-' and below the saturation value, strtoumax returns the digits' value. */
  lemma StrToUMaxPlain(s: string)
    requires !CNumber(s).0 && CNumber(s).1 <= UMaxMax
    ensures StrToUMax(s) == (CNumber(s).1, CNumber(s).2)
  {
  }

  /**
   * A string that starts with a digit is read from its leading run of digits, without a
   * sign, saturated at UINTMAX_MAX.
   */
  lemma StrToUMaxDigitLead(s: string)
    requires s != [] && s[0] in Digits
    ensures var n := Span(s, Digits);
      0 < n && StrToUMax(s) == (if DecimalValue(s[..n]) > UMaxMax then UMaxMax else DecimalValue(s[..n]), n)
  {
    SpanIs(s, CSpaces, 0);
    var n := Span(s, Digits);
    assert s[0..] == s;
    CNumberUnsigned(s, 0, n, s);
  }

  /** A plain run of digits is read whole, without a sign. */
  lemma {:induction false} CNumberDigits(s: string)
    requires s != [] && AllDigits(s)
    ensures CNumber(s) == (false, DecimalValue(s), |s|)
  {
    SpanIs(s, CSpaces, 0);
    SpanIs(s, Digits, |s|);
    assert s[0..] == s && s[0..|s|] == s;
  }

  /** A '-' before a plain run of digits is read as a negative sign. */
  lemma {:induction false} CNumberNegative(s: string)
    requires s != [] && AllDigits(s)
    ensures CNumber("-" + s) == (true, DecimalValue(s), |s| + 1)
  {
    var t := "-" + s;
    SpanIs(t, CSpaces, 0);
    assert t[1..] == s && t[1..|s| + 1] == s;
    SpanIs(s, Digits, |s|);
    assert s[0..|s|] == s;
  }

  /** Decimal text of a natural number, as printed by %d or strconv.FormatUint. */
  function Decimal(n: nat): (r: string)
    ensures r != [] && AllDigits(r)
  {
    if n < 10 then [('0' as int + n) as char]
    else Decimal(n / 10) + [('0' as int + n % 10) as char]
  }

  /** The decimal text reads back as the number it was printed from. */
  lemma {:induction false} DecimalRoundTrip(n: nat)
    ensures DecimalValue(Decimal(n)) == n
  {
    var r := Decimal(n);
    if n >= 10 {
      DecimalRoundTrip(n / 10);
      assert r[..|r| - 1] == Decimal(n / 10);
    }
  }

  /** Go's strings.Join. */
  function Join(parts: seq<string>, sep: string): string
  {
    if parts == [] then ""
    else if |parts| == 1 then parts[0]
    else Join(parts[..|parts| - 1], sep) + sep + parts[|parts| - 1]
  }
}
