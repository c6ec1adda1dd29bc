/**
 * The ld.so.cache reader (src/ldcache.c, src/ldcache.h): ldcache_open maps the file and
 * finds the glibc header, skipping an old libc5 table in front of it; ldcache_resolve
 * fills one slot per library name from the entries of the wanted architecture, asking a
 * selector before replacing a slot; ldcache_close unmaps the file. The file's bytes, the
 * mapping and unmapping, path resolution under the root and the selector are parameters.
 */
module LdCache {
  import opened Wrappers
  import ErrorGeneric
  import opened Nvc

  /** A byte of the mapped file. */
  type Byte = b: int | 0 <= b < 256

  /** The bytes of an ASCII text. */
  function Ascii(s: string): (r: seq<Byte>)
    ensures |r| == |s|
  {
    seq(|s|, i requires 0 <= i < |s| => (s[i] as int) % 256)
  }

  /** Bytes read as characters. */
  function Chars(b: seq<Byte>): (r: string)
    ensures |r| == |b|
  {
    seq(|b|, i requires 0 <= i < |b| => b[i] as char)
  }

  const Libc5Magic: seq<Byte> := Ascii("ld.so-1.7.0")
  const Libc6Magic: seq<Byte> := Ascii("glibc-ld.so.cache")
  const MagicVersion: seq<Byte> := Ascii("1.1")

  /** sizeof(struct header_libc5): the 11-byte magic, padding, and the 32-bit count. */
  const Libc5HeaderSize: nat := 16
  /** sizeof(struct entry_libc5): flags, key and value. */
  const Libc5EntrySize: nat := 12
  /** sizeof(struct header_libc6): magic, version, count, table size and five unused words. */
  const Libc6HeaderSize: nat := 48
  /** sizeof(struct entry_libc6): flags, key, value, OS version and a 64-bit hwcap. */
  const Libc6EntrySize: nat := 24
  /** __alignof__(struct header_libc6), set by its 64-bit hwcap. */
  const Libc6Align: nat := 8

  /** LD_ELF and LD_ARCH_MASK. */
  const LdElf: nat := 0x0001
  const LdArchMask: nat := 0xff00
  /** LD_X8664_LIB64 and LD_I386_LIB32: the architectures LIB_ARCH and LIB32_ARCH name on x86_64. */
  const LdX8664Lib64: nat := 0x0300
  const LdI386Lib32: nat := 0x0000

  /** A 32-bit little-endian word. */
  function U32At(b: seq<Byte>, at: nat): (r: nat)
    requires at + 4 <= |b|
    ensures r < 0x1_0000_0000
  {
    b[at] as int + 0x100 * (b[at + 1] as int) + 0x1_0000 * (b[at + 2] as int) + 0x100_0000 * (b[at + 3] as int)
  }

  /** The little-endian bytes of a 32-bit word. */
  function Le32(n: nat): (r: seq<Byte>)
    requires n < 0x1_0000_0000
    ensures |r| == 4
  {
    [n % 0x100, (n / 0x100) % 0x100, (n / 0x1_0000) % 0x100, n / 0x100_0000]
  }

  /** A word written little-endian reads back as itself. */
  lemma Le32RoundTrip(b: seq<Byte>, at: nat, n: nat)
    requires n < 0x1_0000_0000 && at + 4 <= |b| && b[at..at + 4] == Le32(n)
    ensures U32At(b, at) == n
  {
    assert b[at] == n % 0x100 && b[at + 1] == (n / 0x100) % 0x100;
    assert b[at + 2] == (n / 0x1_0000) % 0x100 && b[at + 3] == n / 0x100_0000;
    DigitsOf(n);
  }

  /** A 32-bit value is the sum of its four base-256 digits. */
  lemma DigitsOf(n: nat)
    requires n < 0x1_0000_0000
    ensures n == n % 0x100 + 0x100 * ((n / 0x100) % 0x100) + 0x1_0000 * ((n / 0x1_0000) % 0x100) + 0x100_0000 * (n / 0x100_0000)
  {
    var q1 := n / 0x100;
    var q2 := q1 / 0x100;
    var q3 := q2 / 0x100;
    assert n == n % 0x100 + 0x100 * q1;
    assert q1 == q1 % 0x100 + 0x100 * q2;
    assert q2 == q2 % 0x100 + 0x100 * q3;
    assert q2 == n / 0x1_0000;
    assert q3 == n / 0x100_0000;
  }

  /** An offset rounded up to the libc6 header's alignment (the mapping itself is page aligned). */
  function Aligned(n: nat): (r: nat)
    ensures r % Libc6Align == 0 && n <= r < n + Libc6Align
  {
    n + (Libc6Align - n % Libc6Align) % Libc6Align
  }

  // ---- ldcache_open ----

  /** Where ldcache_open looks for the libc6 header: past a libc5 table when one is in front. */
  function HeaderStart(b: seq<Byte>): nat
  {
    if |b| <= Libc5HeaderSize || b[..|Libc5Magic|] != Libc5Magic then 0
    else Aligned(Libc5HeaderSize + Libc5EntrySize * U32At(b, |Libc5Magic| + 1))
  }

  /** The offset of the libc6 header ldcache_open accepts, or None for "unsupported file format". */
  function Libc6Offset(b: seq<Byte>): Option<nat>
  {
    var off := HeaderStart(b);
    if |b| <= Libc5HeaderSize then None
    else if |b| - off <= Libc6HeaderSize then None
    else if b[off..off + |Libc6Magic|] != Libc6Magic || b[off + |Libc6Magic|..off + |Libc6Magic| + |MagicVersion|] != MagicVersion then None
    else Some(off)
  }

  /**
   * An accepted header is aligned, is followed by more bytes than its own size, carries
   * the glibc magic and version 1.1, and is at the start of the file unless a libc5
   * table, whose entries it lies past, is in front.
   */
  lemma HeaderAccepted(b: seq<Byte>)
    requires Libc6Offset(b).Some?
    ensures var off := Libc6Offset(b).value;
      off % Libc6Align == 0 && off + Libc6HeaderSize < |b| &&
      b[off..off + 17] == Libc6Magic && b[off + 17..off + 20] == MagicVersion &&
      (off == 0 || (b[..11] == Libc5Magic && off >= Libc5HeaderSize + Libc5EntrySize * U32At(b, 12)))
  {
  }

  /** A file no longer than the libc5 header is refused, whatever it holds. */
  lemma ShortFileRefused(b: seq<Byte>)
    requires |b| <= Libc5HeaderSize
    ensures Libc6Offset(b).None?
  {
  }

  /** The header ldconfig writes for a new-format cache. */
  function Libc6Header(nlibs: nat, tableSize: nat): (r: seq<Byte>)
    requires nlibs < 0x1_0000_0000 && tableSize < 0x1_0000_0000
    ensures |r| == Libc6HeaderSize
  {
    Libc6Magic + MagicVersion + Le32(nlibs) + Le32(tableSize) + seq(20, _ => 0)
  }

  /** The libc6 count word, 20 bytes into the header. */
  function NLibs(b: seq<Byte>, off: nat): nat
    requires off + Libc6HeaderSize <= |b|
  {
    U32At(b, off + 20)
  }

  /** A new-format cache is accepted with its header at the start, and its entry count reads back. */
  lemma NewFormatRoundTrip(nlibs: nat, tableSize: nat, rest: seq<Byte>)
    requires nlibs < 0x1_0000_0000 && tableSize < 0x1_0000_0000 && rest != []
    ensures var b := Libc6Header(nlibs, tableSize) + rest;
      Libc6Offset(b) == Some(0) && NLibs(b, 0) == nlibs
  {
    var b := Libc6Header(nlibs, tableSize) + rest;
    assert b[..11] != Libc5Magic by {
      assert b[0] == Libc6Magic[0] && Libc5Magic[0] != Libc6Magic[0];
    }
    assert b[0..17] == Libc6Magic && b[17..20] == MagicVersion;
    assert b[20..24] == Le32(nlibs);
    Le32RoundTrip(b, 20, nlibs);
  }

  /** A compat cache: a libc5 table of `n` entries, then the libc6 header at the next 8-byte boundary. */
  lemma CompatFormatSkipped(b: seq<Byte>)
    requires |b| > Libc5HeaderSize && b[..11] == Libc5Magic
    ensures HeaderStart(b) == Aligned(Libc5HeaderSize + Libc5EntrySize * U32At(b, 12))
  {
  }

  // ---- ldcache_resolve ----

  /** A libc6 entry: its flags word and the key and value strings it points to. */
  datatype CacheEntry = CacheEntry(flags: nat, key: string, value: string)

  /** The NUL-terminated string at `at`; one that runs to the end of the mapping ends there. */
  function CString(b: seq<Byte>, at: nat): (r: seq<Byte>)
    ensures 0 !in r
    decreases |b| - at
  {
    if at >= |b| || b[at] == 0 then [] else [b[at]] + CString(b, at + 1)
  }

  /** The entry table lies inside the mapping. */
  predicate TableFits(b: seq<Byte>, off: nat)
  {
    off + Libc6HeaderSize <= |b| && off + Libc6HeaderSize + Libc6EntrySize * NLibs(b, off) <= |b|
  }

  /** Entry `i`: string offsets count from the header. */
  function EntryAt(b: seq<Byte>, off: nat, i: nat): CacheEntry
    requires TableFits(b, off) && i < NLibs(b, off)
  {
    var at := off + Libc6HeaderSize + Libc6EntrySize * i;
    CacheEntry(U32At(b, at), Chars(CString(b, off + U32At(b, at + 4))), Chars(CString(b, off + U32At(b, at + 8))))
  }

  /** All the entries of the table. */
  function Entries(b: seq<Byte>, off: nat): (r: seq<CacheEntry>)
    requires TableFits(b, off)
    ensures |r| == NLibs(b, off)
  {
    seq(NLibs(b, off), i requires 0 <= i < NLibs(b, off) => EntryAt(b, off, i))
  }

  /** An entry ldcache_resolve looks at: an ELF library of the wanted architecture. */
  predicate Considered(e: CacheEntry, arch: nat)
  {
    e.flags % 2 == LdElf && (e.flags / 0x100) % 0x100 * 0x100 == arch
  }

  /**
   * What ldcache_resolve consults: path_resolve of an entry's value under the root, and
   * the selector given the slot's current path and the candidate, answering whether to
   * replace it.
   */
  datatype Resolver = Resolver(resolve: string -> Call<string>, select: (Option<string>, string) -> Call<bool>)

  /**
   * The inner loop for one entry, from name `j` on: a name that is not a prefix of the key
   * is passed over; a resolved path equal to the slot's is passed over too; otherwise
   * the selector decides about that slot and the loop ends.
   */
  function PlaceFrom(e: CacheEntry, libs: seq<string>, env: Resolver, j: nat, paths: seq<Option<string>>)
    : (r: Call<seq<Option<string>>>)
    requires |paths| == |libs| && j <= |libs|
    ensures r.Done? ==> |r.value| == |libs|
    decreases |libs| - j
  {
    if j == |libs| then Done(paths)
    else if !(libs[j] <= e.key) then PlaceFrom(e, libs, env, j + 1, paths)
    else
      match env.resolve(e.value)
      case Failed(code, msg) => Failed(code, msg)
      case Done(p) =>
        if paths[j] == Some(p) then PlaceFrom(e, libs, env, j + 1, paths)
        else
          match env.select(paths[j], p)
          case Failed(code, msg) => Failed(code, msg)
          case Done(replace) => Done(if replace then paths[j := Some(p)] else paths)
  }

  /** The outer loop from entry `i` on, over the entries that are considered. */
  function ResolveFrom(entries: seq<CacheEntry>, arch: nat, libs: seq<string>, env: Resolver, i: nat,
                       paths: seq<Option<string>>): (r: Call<seq<Option<string>>>)
    requires |paths| == |libs| && i <= |entries|
    ensures r.Done? ==> |r.value| == |libs|
    decreases |entries| - i
  {
    if i == |entries| then Done(paths)
    else if !Considered(entries[i], arch) then ResolveFrom(entries, arch, libs, env, i + 1, paths)
    else
      match PlaceFrom(entries[i], libs, env, 0, paths)
      case Failed(code, msg) => Failed(code, msg)
      case Done(next) => ResolveFrom(entries, arch, libs, env, i + 1, next)
  }

  /** `n` NULL slots: what the memset leaves. */
  function Nulls(n: nat): (r: seq<Option<string>>)
    ensures |r| == n
  {
    seq(n, _ => None)
  }

  /** ldcache_resolve over a mapped cache whose header is at `off`: slots cleared, then every entry. */
  function ResolveSpec(b: seq<Byte>, off: nat, arch: nat, libs: seq<string>, env: Resolver): Call<seq<Option<string>>>
    requires TableFits(b, off)
  {
    ResolveFrom(Entries(b, off), arch, libs, env, 0, Nulls(|libs|))
  }

  /** The candidate `p` for `lib` comes from entry `e`: considered, keyed by `lib`, and resolving to `p`. */
  predicate Supplies(e: CacheEntry, arch: nat, lib: string, env: Resolver, p: string)
  {
    Considered(e, arch) && lib <= e.key && env.resolve(e.value) == Done(p)
  }

  /** Every filled slot holds a path some entry supplies for its name. */
  predicate Sourced(entries: seq<CacheEntry>, arch: nat, libs: seq<string>, env: Resolver, paths: seq<Option<string>>)
    requires |paths| == |libs|
  {
    forall k :: 0 <= k < |paths| && paths[k].Some? ==>
      exists n :: 0 <= n < |entries| && Supplies(entries[n], arch, libs[k], env, paths[k].value)
  }

  /**
   * One entry changes at most one slot, the names before `j` are never touched, and a
   * changed slot is one whose name prefixes the key, now holding the resolved path the
   * selector accepted; every earlier slot whose name prefixes the key already held it.
   */
  lemma {:induction false} PlaceChangesOne(e: CacheEntry, libs: seq<string>, env: Resolver, j: nat, paths: seq<Option<string>>)
    requires |paths| == |libs| && j <= |libs| && PlaceFrom(e, libs, env, j, paths).Done?
    ensures var r := PlaceFrom(e, libs, env, j, paths).value;
      forall k :: 0 <= k < |libs| && r[k] != paths[k] ==>
        j <= k && libs[k] <= e.key && env.resolve(e.value).Done? && r[k] == Some(env.resolve(e.value).value) &&
        env.select(paths[k], env.resolve(e.value).value) == Done(true) &&
        (forall m :: j <= m < k && libs[m] <= e.key ==> paths[m] == r[k]) &&
        (forall m :: 0 <= m < |libs| && m != k ==> r[m] == paths[m])
    decreases |libs| - j
  {
    if j < |libs| {
      if !(libs[j] <= e.key) {
        PlaceChangesOne(e, libs, env, j + 1, paths);
      } else if env.resolve(e.value).Done? && paths[j] == Some(env.resolve(e.value).value) {
        PlaceChangesOne(e, libs, env, j + 1, paths);
      }
    }
  }

  /** Placing an entry keeps every filled slot sourced, when the entry is considered. */
  lemma PlaceSourced(entries: seq<CacheEntry>, n: nat, arch: nat, libs: seq<string>, env: Resolver, paths: seq<Option<string>>)
    requires |paths| == |libs| && n < |entries| && Considered(entries[n], arch)
    requires Sourced(entries, arch, libs, env, paths) && PlaceFrom(entries[n], libs, env, 0, paths).Done?
    ensures Sourced(entries, arch, libs, env, PlaceFrom(entries[n], libs, env, 0, paths).value)
  {
    var r := PlaceFrom(entries[n], libs, env, 0, paths).value;
    PlaceChangesOne(entries[n], libs, env, 0, paths);
    forall k | 0 <= k < |r| && r[k].Some?
      ensures exists m :: 0 <= m < |entries| && Supplies(entries[m], arch, libs[k], env, r[k].value)
    {
      if r[k] != paths[k] {
        assert Supplies(entries[n], arch, libs[k], env, r[k].value);
      }
    }
  }

  /** The outer loop keeps every filled slot sourced. */
  lemma {:induction false} ResolveSourced(entries: seq<CacheEntry>, arch: nat, libs: seq<string>, env: Resolver, i: nat,
                                          paths: seq<Option<string>>)
    requires |paths| == |libs| && i <= |entries| && Sourced(entries, arch, libs, env, paths)
    requires ResolveFrom(entries, arch, libs, env, i, paths).Done?
    ensures Sourced(entries, arch, libs, env, ResolveFrom(entries, arch, libs, env, i, paths).value)
    decreases |entries| - i
  {
    if i < |entries| {
      if !Considered(entries[i], arch) {
        ResolveSourced(entries, arch, libs, env, i + 1, paths);
      } else {
        PlaceSourced(entries, i, arch, libs, env, paths);
        ResolveSourced(entries, arch, libs, env, i + 1, PlaceFrom(entries[i], libs, env, 0, paths).value);
      }
    }
  }

  /**
   * Every slot ldcache_resolve fills holds the resolved value of an entry of the wanted
   * architecture whose key starts with the slot's name; the rest stay NULL.
   */
  lemma FilledFromCache(b: seq<Byte>, off: nat, arch: nat, libs: seq<string>, env: Resolver)
    requires TableFits(b, off) && ResolveSpec(b, off, arch, libs, env).Done?
    ensures var r := ResolveSpec(b, off, arch, libs, env).value;
      forall k :: 0 <= k < |r| && r[k].Some? ==>
        exists n :: 0 <= n < NLibs(b, off) && Supplies(EntryAt(b, off, n), arch, libs[k], env, r[k].value)
  {
    var entries := Entries(b, off);
    ResolveSourced(entries, arch, libs, env, 0, Nulls(|libs|));
    var r := ResolveSpec(b, off, arch, libs, env).value;
    forall k | 0 <= k < |r| && r[k].Some?
      ensures exists n :: 0 <= n < NLibs(b, off) && Supplies(EntryAt(b, off, n), arch, libs[k], env, r[k].value)
    {
      var n :| 0 <= n < |entries| && Supplies(entries[n], arch, libs[k], env, r[k].value);
      assert entries[n] == EntryAt(b, off, n);
    }
  }

  /** With no entry of the wanted architecture, every slot stays NULL and nothing is consulted. */
  lemma {:induction false} NothingConsidered(entries: seq<CacheEntry>, arch: nat, libs: seq<string>, env: Resolver, i: nat,
                                             paths: seq<Option<string>>)
    requires |paths| == |libs| && i <= |entries|
    requires forall n :: i <= n < |entries| ==> !Considered(entries[n], arch)
    ensures ResolveFrom(entries, arch, libs, env, i, paths) == Done(paths)
    decreases |entries| - i
  {
    if i < |entries| {
      NothingConsidered(entries, arch, libs, env, i + 1, paths);
    }
  }

  /**
   * The cache as struct ldcache holds it: the path, the mapping (NULL before it is made
   * and after it is released by ldcache_close), the header pointer as an offset into it,
   * and the mapped size. `mapped` tells whether the mapping `addr` points to is in place.
   */
  class LdCache {
    const err: ErrorGeneric.Error
    const path: string
    var addr: Option<seq<Byte>>
    var ptr: Option<nat>
    var size: nat
    var mapped: bool

    /** ldcache_init. */
    constructor (err: ErrorGeneric.Error, path: string)
      ensures this.err == err && this.path == path
      ensures addr.None? && ptr.None? && size == 0 && !mapped
    {
      this.err := err;
      this.path := path;
      addr, ptr, size, mapped := None, None, 0, false;
    }

    /**
     * ldcache_open: maps the file (file_map's answer is `file`), then checks the headers.
     * A failed check sets "unsupported file format" and releases the mapping, leaving the
     * pointers as they were.
     */
    method Open(file: Call<seq<Byte>>) returns (rc: int)
      modifies this, err
      ensures rc == 0 || rc == -1
      ensures file.Failed? ==>
        rc == -1 && addr.None? && ptr.None? && !mapped && (err.code, err.msg) == (file.code, Some(file.msg))
      ensures file.Done? ==>
        addr == Some(file.value) && size == |file.value| && ptr == Some(HeaderStart(file.value)) &&
        (rc == 0 <==> Libc6Offset(file.value).Some?) && (mapped <==> rc == 0) &&
        (rc == 0 ==> ptr == Libc6Offset(file.value) && unchanged(err)) &&
        (rc == -1 ==> err.code == -1 && err.msg == Some("unsupported file format: " + path))
    {
      if file.Failed? {
        Record(err, file.code, file.msg);
        addr, ptr, mapped := None, None, false;
        return -1;
      }
      var b := file.value;
      addr, ptr, size, mapped := Some(b), Some(0), |b|, true;
      if size <= Libc5HeaderSize {
        rc := Unsupported();
        return;
      }
      if b[..|Libc5Magic|] == Libc5Magic {
        var next := Libc5HeaderSize + Libc5EntrySize * U32At(b, |Libc5Magic| + 1);
        var padding := (Libc6Align - next % Libc6Align) % Libc6Align;
        ptr := Some(next + padding);
      }
      var h6 := ptr.value;
      if size - h6 <= Libc6HeaderSize {
        rc := Unsupported();
        return;
      }
      if b[h6..h6 + |Libc6Magic|] != Libc6Magic || b[h6 + |Libc6Magic|..h6 + |Libc6Magic| + |MagicVersion|] != MagicVersion {
        rc := Unsupported();
        return;
      }
      return 0;
    }

    /** The fail label of ldcache_open: the error set and the mapping released. */
    method Unsupported() returns (rc: int)
      modifies this`mapped, err
      ensures rc == -1 && !mapped && err.code == -1 && err.msg == Some("unsupported file format: " + path)
    {
      var _ := ErrorGeneric.SetX(err, "unsupported file format: " + path);
      mapped := false;
      return -1;
    }

    /** ldcache_close: file_unmap's answer is `unmap`; only a successful unmap resets the fields. */
    method Close(unmap: Call<()>) returns (rc: int)
      modifies this, err
      ensures unmap.Failed? ==>
        rc == -1 && addr == old(addr) && ptr == old(ptr) && size == old(size) && mapped == old(mapped) &&
        (err.code, err.msg) == (unmap.code, Some(unmap.msg))
      ensures unmap.Done? ==> rc == 0 && addr.None? && ptr.None? && size == 0 && !mapped && unchanged(err)
    {
      if unmap.Failed? {
        Record(err, unmap.code, unmap.msg);
        return -1;
      }
      addr, ptr, size, mapped := None, None, 0, false;
      return 0;
    }

    /**
     * ldcache_resolve for `arch`: clears the `|libs|` slots, then walks the entries. The
     * first error of path_resolve or of the selector ends it with -1.
     */
    method Resolve(arch: nat, libs: seq<string>, paths: array<Option<string>>, env: Resolver) returns (rc: int)
      requires mapped && addr.Some? && ptr.Some? && TableFits(addr.value, ptr.value) && paths.Length == |libs|
      modifies paths, err
      ensures var s := ResolveSpec(addr.value, ptr.value, arch, libs, env);
        (rc == 0 <==> s.Done?) && (rc == 0 || rc == -1) && (s.Done? ==> paths[..] == s.value) &&
        (err.code, err.msg) == After(old((err.code, err.msg)), Fault(s))
    {
      var b, off := addr.value, ptr.value;
      ghost var entries := Entries(b, off);
      for j := 0 to paths.Length
        invariant forall k :: 0 <= k < j ==> paths[k].None?
        invariant unchanged(err)
      {
        paths[j] := None;
      }
      assert paths[..] == Nulls(|libs|);
      var n := NLibs(b, off);
      for i := 0 to n
        invariant ResolveFrom(entries, arch, libs, env, i, paths[..]) == ResolveFrom(entries, arch, libs, env, 0, Nulls(|libs|))
        invariant unchanged(err)
      {
        var e := EntryAt(b, off, i);
        assert e == entries[i];
        if !Considered(e, arch) {
          continue;
        }
        var failure := Place(e, libs, paths, env);
        if failure.Some? {
          Record(err, failure.value.0, failure.value.1);
          return -1;
        }
      }
      return 0;
    }
  }

  /** The inner loop of ldcache_resolve for one entry, over the names in order. */
  method Place(e: CacheEntry, libs: seq<string>, paths: array<Option<string>>, env: Resolver)
    returns (failure: Option<(int, string)>)
    requires paths.Length == |libs|
    modifies paths
    ensures var s := PlaceFrom(e, libs, env, 0, old(paths[..]));
      failure == Fault(s) && (s.Done? ==> paths[..] == s.value)
  {
    for j := 0 to |libs|
      invariant paths[..] == old(paths[..])
      invariant PlaceFrom(e, libs, env, j, paths[..]) == PlaceFrom(e, libs, env, 0, old(paths[..]))
    {
      if !(libs[j] <= e.key) {
        continue;
      }
      var resolved := env.resolve(e.value);
      if resolved.Failed? {
        return Some((resolved.code, resolved.msg));
      }
      var path := resolved.value;
      if paths[j].Some? && paths[j].value == path {
        continue;
      }
      var replace := env.select(paths[j], path);
      if replace.Failed? {
        return Some((replace.code, replace.msg));
      }
      if replace.value {
        paths[j] := Some(path);
      }
      return None;
    }
    return None;
  }
}
