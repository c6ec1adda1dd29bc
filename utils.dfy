/**
 * The string, array and path helpers of libnvidia-container (src/utils.c). C strings are
 * sequences of characters without their terminating NUL, a NULL pointer is `None`, and an
 * array of string pointers is an array of `Option<string>`.
 */
module Utils {
  import opened Wrappers
  import Text

  /** PATH_MAX on Linux: the size of every path buffer, terminator included. */
  const PathMax: nat := 4096

  /** The range of pid_t (int32). */
  const PidMin: int := -0x8000_0000
  const PidMax: int := 0x7FFF_FFFF

  /** INTMAX_MIN and INTMAX_MAX on LP64: strtoimax's saturated results. */
  const IntMaxMin: int := -0x8000_0000_0000_0000
  const IntMaxMax: int := 0x7FFF_FFFF_FFFF_FFFF

  /** errno values the helpers set. */
  const EINVAL: int := 22
  const ERANGE: int := 34
  const ENAMETOOLONG: int := 36

  /**
   * The sign of strcmp(a, b): characters compared as unsigned, a string that ends first
   * is the smaller.
   */
  function Strcmp(a: string, b: string): (r: int)
    ensures r == 0 <==> a == b
    ensures -1 <= r <= 1
    decreases |a|
  {
    if a == [] && b == [] then 0
    else if a == [] then -1
    else if b == [] then 1
    else if a[0] < b[0] then -1
    else if a[0] > b[0] then 1
    else Strcmp(a[1..], b[1..])
  }

  /** The first `n` characters of `s`, or all of it: what strncmp(s, _, n) reads of `s`. */
  function Take(s: string, n: nat): string
  {
    if n <= |s| then s[..n] else s
  }

  /** strpcmp(s1, s2) = strncmp(s1, s2, strlen(s2)). */
  function Strpcmp(s1: string, s2: string): int
  {
    Strcmp(Take(s1, |s2|), s2)
  }

  /** strpcmp is 0 exactly when s2 is a prefix of s1. */
  lemma StrpcmpPrefix(s1: string, s2: string)
    ensures Strpcmp(s1, s2) == 0 <==> s2 <= s1
  {
  }

  /** strrcmp: -1 when s1 is shorter than s2, otherwise strcmp of s1's tail with s2. */
  function Strrcmp(s1: string, s2: string): int
  {
    if |s1| >= |s2| then Strcmp(s1[|s1| - |s2|..], s2) else -1
  }

  /** strrcmp is 0 exactly when s2 is a suffix of s1, and -1 when s1 is the shorter. */
  lemma StrrcmpSuffix(s1: string, s2: string)
    ensures |s1| < |s2| ==> Strrcmp(s1, s2) == -1
    ensures Strrcmp(s1, s2) == 0 <==> Text.HasSuffix(s1, s2)
  {
  }

  /** strempty: a non-NULL string with no characters; NULL is not empty. */
  predicate StrEmpty(str: Option<string>)
  {
    str.Some? && str.value == ""
  }

  /** Some element of the array is a prefix of `str`. */
  predicate Matches(str: string, arr: seq<string>)
  {
    exists i :: 0 <= i < |arr| && arr[i] <= str
  }

  /** strmatch: the loop over the array, stopping at the first prefix. */
  method StrMatch(str: string, arr: seq<string>) returns (r: bool)
    ensures r <==> Matches(str, arr)
  {
    for i := 0 to |arr|
      invariant forall j :: 0 <= j < i ==> !(arr[j] <= str)
    {
      StrpcmpPrefix(str, arr[i]);
      if Strpcmp(str, arr[i]) == 0 {
        return true;
      }
    }
    return false;
  }

  /**
   * strjoin(&s1, s2, sep): the new value of *s1. A NULL or empty *s1 becomes s2; any other
   * gets the separator and s2 appended. Allocation failure is not modelled.
   */
  function StrJoin(s1: Option<string>, s2: string, sep: string): (r: string)
  {
    var start := if s1.None? then "" else s1.value;
    if start != "" then start + sep + s2 else s2
  }

  /** The joined string is s2 alone, or the old string, the separator and s2. */
  lemma StrJoinMeaning(s1: Option<string>, s2: string, sep: string)
    ensures s1.None? || s1.value == "" ==> StrJoin(s1, s2, sep) == s2
    ensures s1.Some? && s1.value != "" ==> StrJoin(s1, s2, sep) == s1.value + sep + s2
    ensures |StrJoin(s1, s2, sep)| ==
      (if s1.Some? && s1.value != "" then |s1.value| + |sep| else 0) + |s2|
  {
  }

  /**
   * strtoimax(s, &end, 10): the value read, saturated at INTMAX_MIN and INTMAX_MAX, and the
   * index where conversion stopped (0 when there were no digits).
   */
  function StrToIMax(s: string): (r: (int, nat))
    ensures IntMaxMin <= r.0 <= IntMaxMax && r.1 <= |s|
  {
    var (negative, v, end) := Text.CNumber(s);
    var value: int := if negative then -(v as int) else v;
    (if value < IntMaxMin then IntMaxMin else if value > IntMaxMax then IntMaxMax else value, end)
  }

  /**
   * strtopid: the whole string must be one number (EINVAL otherwise) that is not a
   * saturated value and fits pid_t (ERANGE otherwise). The error is "parse pid failed"
   * with that errno.
   */
  function StrToPid(s: string): (r: Result<int, (string, int)>)
  {
    var (n, end) := StrToIMax(s);
    if end == 0 || end != |s| then Failure(("parse pid failed", EINVAL))
    else if n == IntMaxMin || n == IntMaxMax || !(PidMin <= n <= PidMax) then Failure(("parse pid failed", ERANGE))
    else Success(n)
  }

  /** Every pid parsed lies in the range of pid_t. */
  lemma StrToPidRange(s: string)
    ensures StrToPid(s).Success? ==> PidMin <= StrToPid(s).value <= PidMax
  {
  }

  /** The decimal text of any non-negative pid reads back as that pid. */
  lemma {:induction false} StrToPidRoundTrip(n: nat)
    requires n <= PidMax
    ensures StrToPid(Text.Decimal(n)) == Success(n)
  {
    var s := Text.Decimal(n);
    Text.DecimalRoundTrip(n);
    Text.CNumberDigits(s);
    assert StrToIMax(s) == (n, |s|);
  }

  /** A '-' before the decimal text of n reads back as the pid -n, down to the least pid_t. */
  lemma {:induction false} StrToPidNegative(n: nat)
    requires -(n as int) >= PidMin
    ensures StrToPid("-" + Text.Decimal(n)) == Success(-(n as int))
  {
    var s := Text.Decimal(n);
    Text.DecimalRoundTrip(n);
    Text.CNumberNegative(s);
    assert StrToIMax("-" + s) == (-(n as int), |s| + 1);
  }

  /** An empty string is no pid. */
  lemma StrToPidEmpty()
    ensures StrToPid("") == Failure(("parse pid failed", EINVAL))
  {
  }

  /** array_append: copies `src` into `dst` at `at` and returns the index just past it. */
  method ArrayAppend<T>(dst: array<T>, at: nat, src: seq<T>) returns (next: nat)
    requires at + |src| <= dst.Length
    modifies dst
    ensures next == at + |src|
    ensures dst[..] == old(dst[..at]) + src + old(dst[at + |src|..])
  {
    for i := 0 to |src|
      invariant dst[..] == old(dst[..at]) + src[..i] + old(dst[at + i..])
    {
      dst[at + i] := src[i];
      assert src[..i + 1] == src[..i] + [src[i]];
    }
    assert src[..|src|] == src;
    next := at + |src|;
  }

  /** The non-NULL entries of `s`, in their order. */
  function NonNull(s: seq<Option<string>>): seq<Option<string>>
  {
    if s == [] then []
    else (if s[0].Some? then [s[0]] else []) + NonNull(s[1..])
  }

  /** The NULL entries of `s`, counted. */
  function NullCount(s: seq<Option<string>>): nat
  {
    if s == [] then 0 else (if s[0].None? then 1 else 0) + NullCount(s[1..])
  }

  /** The array array_pack leaves behind: the non-NULL entries in order, then the NULLs. */
  function Packed(s: seq<Option<string>>): seq<Option<string>>
  {
    NonNull(s) + seq(NullCount(s), _ => None)
  }

  lemma {:induction false} NonNullSnoc(s: seq<Option<string>>, x: Option<string>)
    ensures NonNull(s + [x]) == NonNull(s) + (if x.Some? then [x] else [])
    ensures NullCount(s + [x]) == NullCount(s) + (if x.None? then 1 else 0)
    decreases |s|
  {
    if s != [] {
      assert (s + [x])[1..] == s[1..] + [x];
      NonNullSnoc(s[1..], x);
    }
  }

  /** Packing keeps the length and exactly the entries, NULLs and all. */
  lemma {:induction false} PackedPermutes(s: seq<Option<string>>)
    ensures |Packed(s)| == |s|
    ensures multiset(Packed(s)) == multiset(s)
    decreases |s|
  {
    if s != [] {
      PackedPermutes(s[1..]);
      var nulls: seq<Option<string>> := seq(NullCount(s[1..]), _ => None);
      if s[0].None? {
        assert seq(NullCount(s), _ => None) == [None] + nulls;
        assert s == [s[0]] + s[1..];
      } else {
        assert Packed(s) == [s[0]] + Packed(s[1..]);
        assert s == [s[0]] + s[1..];
      }
    }
  }

  /** Every entry before the packed size is non-NULL, every one after it NULL. */
  lemma {:induction false} NonNullEntries(s: seq<Option<string>>)
    ensures forall k :: 0 <= k < |NonNull(s)| ==> NonNull(s)[k].Some?
    decreases |s|
  {
    if s != [] {
      NonNullEntries(s[1..]);
    }
  }

  /**
   * array_pack: swaps the non-NULL entries to the front in their order and returns their
   * count as the new size; a NULL array is left alone and the size is not touched.
   */
  method ArrayPack(arr: array?<Option<string>>, size: nat) returns (newSize: nat)
    requires arr != null ==> size <= arr.Length
    modifies arr
    ensures arr == null ==> newSize == size
    ensures arr != null ==>
      arr[..size] == Packed(old(arr[..size])) && arr[size..] == old(arr[size..]) &&
      newSize == |NonNull(old(arr[..size]))|
  {
    if arr == null {
      return size;
    }
    ghost var orig := arr[..size];
    newSize := 0;
    var ptr := 0;
    while ptr < size
      invariant newSize <= ptr <= size
      invariant newSize == |NonNull(orig[..ptr])| && ptr - newSize == NullCount(orig[..ptr])
      invariant arr[..size] == PackState(orig, ptr, newSize)
      invariant arr[size..] == old(arr[size..])
    {
      newSize := PackEntry(arr, size, orig, ptr, newSize);
      ptr := ptr + 1;
    }
    assert orig[..size] == orig;
  }

  /** The body of array_pack's loop for the entry at `ptr`; `n` entries are packed so far. */
  method PackEntry(arr: array<Option<string>>, size: nat, ghost orig: seq<Option<string>>, ptr: nat, n: nat)
    returns (next: nat)
    requires size <= arr.Length && |orig| == size && n <= ptr < size
    requires n == |NonNull(orig[..ptr])| && ptr - n == NullCount(orig[..ptr])
    requires arr[..size] == PackState(orig, ptr, n)
    modifies arr
    ensures next <= ptr + 1
    ensures next == |NonNull(orig[..ptr + 1])| && ptr + 1 - next == NullCount(orig[..ptr + 1])
    ensures arr[..size] == PackState(orig, ptr + 1, next)
    ensures arr[size..] == old(arr[size..])
  {
    PackStep(orig, ptr, n);
    next := n;
    if arr[ptr].Some? {
      arr[n], arr[ptr] := arr[ptr], arr[n];
      next := n + 1;
    }
  }

  /** The array part way through array_pack: packed up to `ptr`, untouched after it. */
  ghost function PackState(orig: seq<Option<string>>, ptr: nat, n: nat): seq<Option<string>>
    requires n <= ptr <= |orig|
  {
    NonNull(orig[..ptr]) + seq(ptr - n, _ => None) + orig[ptr..]
  }

  /** One pass of array_pack's loop: a non-NULL entry is swapped with the first NULL. */
  lemma {:induction false} PackStep(orig: seq<Option<string>>, ptr: nat, n: nat)
    requires n <= ptr < |orig|
    requires n == |NonNull(orig[..ptr])| && ptr - n == NullCount(orig[..ptr])
    ensures n + 1 <= ptr + 1 && |PackState(orig, ptr, n)| == |orig|
    ensures var cur := PackState(orig, ptr, n);
      if orig[ptr].Some? then
        cur[n := cur[ptr]][ptr := cur[n]] == PackState(orig, ptr + 1, n + 1) &&
        n + 1 == |NonNull(orig[..ptr + 1])| && ptr - n == NullCount(orig[..ptr + 1])
      else
        cur == PackState(orig, ptr + 1, n) &&
        n == |NonNull(orig[..ptr + 1])| && ptr + 1 - n == NullCount(orig[..ptr + 1])
  {
    NonNullSnoc(orig[..ptr], orig[ptr]);
    assert orig[..ptr + 1] == orig[..ptr] + [orig[ptr]];
    var cur := PackState(orig, ptr, n);
    var next := if orig[ptr].Some? then cur[n := cur[ptr]][ptr := cur[n]] else cur;
    var target := PackState(orig, ptr + 1, if orig[ptr].Some? then n + 1 else n);
    assert |next| == |target|;
    forall k | 0 <= k < |next| ensures next[k] == target[k] {
      if k < n {
        assert next[k] == NonNull(orig[..ptr])[k];
      } else if k <= ptr {
        assert cur[ptr] == orig[ptr];
      }
    }
  }

  /**
   * snprintf(buf, cap, "%s", out): what lands in the buffer (at most cap - 1 characters)
   * and whether the whole text fitted.
   */
  function Snprintf(out: string, cap: nat): (r: (string, bool))
    requires cap > 0
    ensures r.1 <==> |out| < cap
    ensures r.1 ==> r.0 == out
    ensures |r.0| < cap && r.0 <= out
  {
    if |out| < cap then (out, true) else (out[..cap - 1], false)
  }

  /** The separator path_join and path_append put before a path: none when it is absolute. */
  function Separator(path: string): string
  {
    if path != [] && path[0] == '/' then "" else "/"
  }

  /** The buffer, and the error message format and errno of a failed path operation. */
  datatype PathResult = PathResult(buf: string, error: Option<(string, int)>)

  /**
   * path_join(buf, p1, p2): p1, a '/' unless p2 is absolute, then p2, into a buffer of
   * PATH_MAX; a result that does not fit fails with ENAMETOOLONG.
   */
  function PathJoin(p1: string, p2: string): (r: PathResult)
    ensures r.error.None? <==> |p1 + Separator(p2) + p2| < PathMax
    ensures r.error.None? ==> r.buf == p1 + Separator(p2) + p2
  {
    var (buf, fits) := Snprintf(p1 + Separator(p2) + p2, PathMax);
    if fits then PathResult(buf, None)
    else PathResult(buf, Some(("path error: " + p1 + "/" + p2, ENAMETOOLONG)))
  }

  /**
   * path_append(buf, path): the separator and path written after the buffer's current
   * string, into what is left of PATH_MAX. On failure the truncated text stays in the
   * buffer, and the message quotes that text rather than the original buffer.
   */
  function PathAppend(buf: string, path: string): (r: PathResult)
    requires |buf| < PathMax
    ensures r.error.None? <==> |buf + Separator(path) + path| < PathMax
    ensures r.error.None? ==> r.buf == buf + Separator(path) + path
    ensures buf <= r.buf && |r.buf| < PathMax
  {
    var (written, fits) := Snprintf(Separator(path) + path, PathMax - |buf|);
    if fits then PathResult(buf + written, None)
    else PathResult(buf + written, Some(("path error: " + written + "/" + path, ENAMETOOLONG)))
  }

  /** Appending to a buffer that holds p1 leaves the same buffer as joining p1 and p2. */
  lemma PathAppendIsJoin(p1: string, p2: string)
    requires |p1| < PathMax
    ensures PathAppend(p1, p2).buf == PathJoin(p1, p2).buf
    ensures PathAppend(p1, p2).error.None? <==> PathJoin(p1, p2).error.None?
  {
    var out := Separator(p2) + p2;
    assert p1 + Separator(p2) + p2 == p1 + out;
    if |p1 + out| >= PathMax {
      assert (p1 + out)[..PathMax - 1] == p1 + out[..PathMax - |p1| - 1];
    }
  }
}
