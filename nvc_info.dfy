/**
 * Driver and device information (src/nvc_info.c): which libraries, binaries, device nodes
 * and IPC paths of the NVIDIA driver a container gets, and how each is looked up.
 *
 * The driver RPC calls, the ld.so.cache lookup, stat, access, realpath, file_exists and
 * getenv are parameters: each is a value or a function from a path to its outcome.
 */
module NvcInfo {
  import opened Wrappers
  import Text
  import Utils
  import Options
  import ErrorGeneric
  import opened NvcInternal
  import opened Nvc

  const DefaultDriverOpts: string := "utility compute video graphic compat32"
  const DefaultDeviceOpts: string := "utility compute video graphic"

  // ---- the name tables ----

  const UtilityBins: seq<string> := ["nvidia-smi", "nvidia-debugdump", "nvidia-persistenced"]
  const ComputeBins: seq<string> := ["nvidia-cuda-mps-control", "nvidia-cuda-mps-server"]

  const UtilityLibs: seq<string> := ["libnvidia-ml.so", "libnvidia-cfg.so"]
  const ComputeLibs: seq<string> := [
    "libcuda.so", "libnvidia-opencl.so", "libnvidia-ptxjitcompiler.so", "libnvidia-fatbinaryloader.so",
    "libnvidia-compiler.so"]
  const VideoLibs: seq<string> := ["libvdpau_nvidia.so", "libnvidia-encode.so", "libnvcuvid.so"]
  const GraphicLibs: seq<string> := [
    "libnvidia-eglcore.so", "libnvidia-glcore.so", "libnvidia-tls.so", "libnvidia-glsi.so", "libnvidia-fbc.so",
    "libnvidia-ifr.so"]
  const GraphicLibsGlvnd: seq<string> := [
    "libGLX_nvidia.so", "libEGL_nvidia.so", "libGLESv2_nvidia.so", "libGLESv1_CM_nvidia.so"]
  const GraphicLibsCompat: seq<string> := ["libGL.so", "libEGL.so", "libGLESv1_CM.so", "libGLESv2.so"]

  /** MAX_BINS and MAX_LIBS: the room of the local name arrays. */
  const MaxBins: nat := |UtilityBins| + |ComputeBins|
  const MaxLibs: nat := |UtilityLibs| + |ComputeLibs| + |VideoLibs| + |GraphicLibs| + |GraphicLibsGlvnd| + |GraphicLibsCompat|

  /** `flags & opt` is non-zero. */
  predicate Has(flags: Options.Flags, opt: Options.Flags)
  {
    flags * opt != {}
  }

  const LibFlags: Options.Flags := Options.OptUtilityLibs + Options.OptComputeLibs + Options.OptVideoLibs + Options.OptGraphicLibs
  const BinFlags: Options.Flags := Options.OptUtilityBins + Options.OptComputeBins

  /** The graphics libraries: the common ones, then the compat set or the GLVND set. */
  function GraphicNames(flags: Options.Flags): seq<string>
  {
    GraphicLibs + (if Has(flags, Options.OptNoGlvnd) then GraphicLibsCompat else GraphicLibsGlvnd)
  }

  /** A table appended when its condition holds. */
  function Part(cond: bool, table: seq<string>): seq<string>
  {
    if cond then table else []
  }

  /** The library names lookup_libraries lists, in the order of its array_append calls. */
  function LibraryNames(flags: Options.Flags): (r: seq<string>)
    ensures |r| <= MaxLibs
  {
    Part(Has(flags, Options.OptUtilityLibs), UtilityLibs) + Part(Has(flags, Options.OptComputeLibs), ComputeLibs) +
    Part(Has(flags, Options.OptVideoLibs), VideoLibs) + Part(Has(flags, Options.OptGraphicLibs), GraphicNames(flags))
  }

  /** The binary names lookup_binaries lists: the MPS binaries only without no-mps. */
  function BinaryNames(flags: Options.Flags): (r: seq<string>)
    ensures |r| <= MaxBins
  {
    Part(Has(flags, Options.OptUtilityBins), UtilityBins) +
    Part(Has(flags, Options.OptComputeBins) && !Has(flags, Options.OptNoMps), ComputeBins)
  }

  /** No library is listed exactly when no library option is set. */
  lemma LibraryNamesEmpty(flags: Options.Flags)
    ensures LibraryNames(flags) == [] <==> !Has(flags, LibFlags)
  {
    assert Has(flags, LibFlags) <==>
      Has(flags, Options.OptUtilityLibs) || Has(flags, Options.OptComputeLibs) ||
      Has(flags, Options.OptVideoLibs) || Has(flags, Options.OptGraphicLibs);
  }

  /** With graphics, the list ends in the compat libraries under no-glvnd and the GLVND ones otherwise. */
  lemma GraphicTail(flags: Options.Flags)
    requires Has(flags, Options.OptGraphicLibs)
    ensures var r := LibraryNames(flags);
      |r| >= 4 && r[|r| - 4..] == if Has(flags, Options.OptNoGlvnd) then GraphicLibsCompat else GraphicLibsGlvnd
  {
    var r := LibraryNames(flags);
    var tail := if Has(flags, Options.OptNoGlvnd) then GraphicLibsCompat else GraphicLibsGlvnd;
    var front := (if Has(flags, Options.OptUtilityLibs) then UtilityLibs else []) +
      (if Has(flags, Options.OptComputeLibs) then ComputeLibs else []) +
      (if Has(flags, Options.OptVideoLibs) then VideoLibs else []) + GraphicLibs;
    assert r == front + tail;
  }

  /** The MPS control binary is listed exactly with compute and without no-mps. */
  lemma MpsBinaries(flags: Options.Flags)
    ensures ComputeBins[0] in BinaryNames(flags) <==> Has(flags, Options.OptComputeBins) && !Has(flags, Options.OptNoMps)
    ensures |BinaryNames(flags)| ==
      (if Has(flags, Options.OptUtilityBins) then 3 else 0) +
      (if Has(flags, Options.OptComputeBins) && !Has(flags, Options.OptNoMps) then 2 else 0)
  {
    assert ComputeBins[0][7] != UtilityBins[0][7] && ComputeBins[0][7] != UtilityBins[1][7];
    assert ComputeBins[0][7] != UtilityBins[2][7];
    assert ComputeBins[0] !in UtilityBins;
  }

  /** The library names gathered with array_append into an array of MAX_LIBS. */
  method CollectLibraries(flags: Options.Flags) returns (names: seq<string>)
    ensures names == LibraryNames(flags)
  {
    var libs := new string[MaxLibs](_ => "");
    var n := 0;
    var u, c, v := Has(flags, Options.OptUtilityLibs), Has(flags, Options.OptComputeLibs), Has(flags, Options.OptVideoLibs);
    if u {
      n := Append(libs, n, UtilityLibs);
    }
    assert libs[..n] == Part(u, UtilityLibs);
    if c {
      n := Append(libs, n, ComputeLibs);
    }
    assert libs[..n] == Part(u, UtilityLibs) + Part(c, ComputeLibs);
    if v {
      n := Append(libs, n, VideoLibs);
    }
    assert libs[..n] == Part(u, UtilityLibs) + Part(c, ComputeLibs) + Part(v, VideoLibs);
    if Has(flags, Options.OptGraphicLibs) {
      n := AppendGraphics(libs, n, flags);
    }
    return libs[..n];
  }

  /** The graphics part of lookup_libraries: two array_append calls. */
  method AppendGraphics(libs: array<string>, at: nat, flags: Options.Flags) returns (next: nat)
    requires at + |GraphicNames(flags)| <= libs.Length
    modifies libs
    ensures next == at + |GraphicNames(flags)| && libs[..next] == old(libs[..at]) + GraphicNames(flags)
  {
    next := Append(libs, at, GraphicLibs);
    if Has(flags, Options.OptNoGlvnd) {
      next := Append(libs, next, GraphicLibsCompat);
    } else {
      next := Append(libs, next, GraphicLibsGlvnd);
    }
  }

  /** The binary names gathered with array_append into an array of MAX_BINS. */
  method CollectBinaries(flags: Options.Flags) returns (names: seq<string>)
    ensures names == BinaryNames(flags)
  {
    var bins := new string[MaxBins](_ => "");
    var n := 0;
    if Has(flags, Options.OptUtilityBins) {
      n := Append(bins, n, UtilityBins);
    }
    assert bins[..n] == Part(Has(flags, Options.OptUtilityBins), UtilityBins);
    if Has(flags, Options.OptComputeBins) && !Has(flags, Options.OptNoMps) {
      n := Append(bins, n, ComputeBins);
    }
    return bins[..n];
  }

  /** array_append, seen as extending the filled prefix of the array. */
  method Append(dst: array<string>, at: nat, src: seq<string>) returns (next: nat)
    requires at + |src| <= dst.Length
    modifies dst
    ensures next == at + |src| && dst[..next] == old(dst[..at]) + src
  {
    next := Utils.ArrayAppend(dst, at, src);
    assert dst[..next] == dst[..][..next];
  }

  // ---- find_binary_paths ----

  /** access(path, X_OK) and realpath, as seen from the caller's file system. */
  datatype Host = Host(executable: string -> bool, realpath: string -> Call<string>)

  const PathNotFound: string := "environment variable PATH not found"

  /** A PATH entry as searched: the empty entry is the current directory. */
  function SearchDir(entry: string): string
  {
    if entry == "" then "." else entry
  }

  /** The executable file for `name` in a PATH entry, when the joined path fits and is executable. */
  function Hit(entry: string, name: string, executable: string -> bool): (r: Option<string>)
    ensures r.Some? ==> executable(r.value)
  {
    var joined := Utils.PathJoin(SearchDir(entry), name);
    if joined.error.None? && executable(joined.buf) then Some(joined.buf) else None
  }

  /**
   * The inner loop of find_binary_paths over one PATH entry, from slot `j` on: an empty
   * slot whose binary is found here is filled with its real path, and a realpath failure
   * ends the search.
   */
  function VisitDir(bins: seq<Option<string>>, names: seq<string>, entry: string, host: Host, j: nat)
    : (r: Call<seq<Option<string>>>)
    requires |bins| == |names| && j <= |names|
    ensures r.Done? ==> |r.value| == |names|
    decreases |names| - j
  {
    if j == |names| then Done(bins)
    else if bins[j].Some? then VisitDir(bins, names, entry, host, j + 1)
    else
      match Hit(entry, names[j], host.executable)
      case None => VisitDir(bins, names, entry, host, j + 1)
      case Some(p) =>
        match host.realpath(p)
        case Failed(code, msg) => Failed(code, msg)
        case Done(q) => VisitDir(bins[j := Some(q)], names, entry, host, j + 1)
  }

  /** The outer loop of find_binary_paths: the PATH entries in order. */
  function SearchPath(bins: seq<Option<string>>, names: seq<string>, entries: seq<string>, host: Host)
    : (r: Call<seq<Option<string>>>)
    requires |bins| == |names|
    ensures r.Done? ==> |r.value| == |names|
    decreases |entries|
  {
    if entries == [] then Done(bins)
    else
      match VisitDir(bins, names, entries[0], host, 0)
      case Failed(code, msg) => Failed(code, msg)
      case Done(next) => SearchPath(next, names, entries[1..], host)
  }

  /** find_binary_paths: every binary looked up along PATH, which must be set. */
  function FindBinaryPathsSpec(pathEnv: Option<string>, names: seq<string>, host: Host): (r: Call<seq<Option<string>>>)
    ensures r.Done? ==> |r.value| == |names|
  {
    if pathEnv.None? then Failed(-1, PathNotFound)
    else SearchPath(seq(|names|, _ => None), names, Text.Split(pathEnv.value, ':'), host)
  }

  /** The first PATH entry holding an executable `name`. */
  function FirstHit(entries: seq<string>, name: string, executable: string -> bool): (r: Option<string>)
    ensures r.Some? ==> executable(r.value)
    decreases |entries|
  {
    if entries == [] then None
    else if Hit(entries[0], name, executable).Some? then Hit(entries[0], name, executable)
    else FirstHit(entries[1..], name, executable)
  }

  /** A hit whose real path can be taken: nothing to resolve, or realpath succeeds. */
  predicate Resolvable(hit: Option<string>, host: Host)
  {
    hit.Some? ==> host.realpath(hit.value).Done?
  }

  /** The real path of a hit, NULL for no hit. */
  function Resolved(hit: Option<string>, host: Host): Option<string>
  {
    if hit.Some? && host.realpath(hit.value).Done? then Some(host.realpath(hit.value).value) else None
  }

  /** One entry's scan succeeds exactly when every empty slot from `j` it has a hit for resolves. */
  lemma {:induction false} VisitDirDone(bins: seq<Option<string>>, names: seq<string>, entry: string, host: Host, j: nat)
    requires |bins| == |names| && j <= |names|
    ensures VisitDir(bins, names, entry, host, j).Done? <==>
      forall i :: j <= i < |names| && bins[i].None? ==> Resolvable(Hit(entry, names[i], host.executable), host)
    decreases |names| - j
  {
    if j < |names| {
      var h := Hit(entry, names[j], host.executable);
      if bins[j].Some? || h.None? {
        VisitDirDone(bins, names, entry, host, j + 1);
      } else if host.realpath(h.value).Done? {
        VisitDirDone(bins[j := Some(host.realpath(h.value).value)], names, entry, host, j + 1);
      }
    }
  }

  /** One entry fills exactly the empty slots from `j` whose binary it holds. */
  lemma {:induction false} VisitDirFills(bins: seq<Option<string>>, names: seq<string>, entry: string, host: Host, j: nat)
    requires |bins| == |names| && j <= |names|
    requires VisitDir(bins, names, entry, host, j).Done?
    ensures forall i :: 0 <= i < |names| ==>
      VisitDir(bins, names, entry, host, j).value[i] ==
        if i < j || bins[i].Some? then bins[i] else Resolved(Hit(entry, names[i], host.executable), host)
    decreases |names| - j
  {
    if j < |names| {
      var h := Hit(entry, names[j], host.executable);
      if bins[j].Some? || h.None? {
        VisitDirFills(bins, names, entry, host, j + 1);
      } else {
        VisitDirFills(bins[j := Some(host.realpath(h.value).value)], names, entry, host, j + 1);
      }
    }
  }

  /**
   * The PATH search fills each empty slot with the real path of its binary's first hit,
   * and succeeds exactly when every such first hit resolves.
   */
  lemma {:induction false} SearchPathMeaning(bins: seq<Option<string>>, names: seq<string>, entries: seq<string>, host: Host)
    requires |bins| == |names|
    ensures var r := SearchPath(bins, names, entries, host);
      r.Done? <==> forall i :: 0 <= i < |names| && bins[i].None? ==> Resolvable(FirstHit(entries, names[i], host.executable), host)
    ensures var r := SearchPath(bins, names, entries, host);
      r.Done? ==> forall i :: 0 <= i < |names| ==>
        r.value[i] == if bins[i].Some? then bins[i] else Resolved(FirstHit(entries, names[i], host.executable), host)
    decreases |entries|
  {
    if entries != [] {
      VisitDirDone(bins, names, entries[0], host, 0);
      var v := VisitDir(bins, names, entries[0], host, 0);
      if v.Done? {
        VisitDirFills(bins, names, entries[0], host, 0);
        SearchPathMeaning(v.value, names, entries[1..], host);
        forall i | 0 <= i < |names| && bins[i].None?
          ensures (v.value[i].None? <==> Hit(entries[0], names[i], host.executable).None?)
        {
          var h := Hit(entries[0], names[i], host.executable);
          assert Resolvable(h, host);
        }
      } else {
        var i :| 0 <= i < |names| && bins[i].None? && !Resolvable(Hit(entries[0], names[i], host.executable), host);
        assert FirstHit(entries, names[i], host.executable) == Hit(entries[0], names[i], host.executable);
      }
    }
  }

  /**
   * find_binary_paths keeps, for each binary, the real path of the first PATH entry that
   * holds it executable, and fails exactly when such a real path cannot be taken.
   */
  lemma FirstExecutableWins(env: string, names: seq<string>, host: Host)
    ensures var r := FindBinaryPathsSpec(Some(env), names, host);
      r.Done? <==> forall i :: 0 <= i < |names| ==> Resolvable(FirstHit(Text.Split(env, ':'), names[i], host.executable), host)
    ensures var r := FindBinaryPathsSpec(Some(env), names, host);
      r.Done? ==> forall i :: 0 <= i < |names| ==> r.value[i] == Resolved(FirstHit(Text.Split(env, ':'), names[i], host.executable), host)
  {
    SearchPathMeaning(seq(|names|, _ => None), names, Text.Split(env, ':'), host);
  }

  /** find_binary_paths: strsep over a copy of PATH, each entry searched for the missing binaries. */
  method FindBinaryPaths(err: ErrorGeneric.Error, pathEnv: Option<string>, names: seq<string>, host: Host)
    returns (rv: int, bins: array<Option<string>>)
    modifies err
    ensures fresh(bins) && bins.Length == |names|
    ensures var s := FindBinaryPathsSpec(pathEnv, names, host);
      (rv == 0 <==> s.Done?) && (rv == 0 || rv == -1) && (s.Done? ==> bins[..] == s.value) &&
      (err.code, err.msg) == After(old((err.code, err.msg)), Fault(s))
  {
    bins := new Option<string>[|names|](_ => None);
    if pathEnv.None? {
      var _ := ErrorGeneric.SetX(err, PathNotFound);
      return -1, bins;
    }
    var ptr := Some(pathEnv.value);
    assert bins[..] == seq(|names|, _ => None);
    // strsep returns NULL only once the pointer is NULL.
    while ptr.Some?
      invariant SearchPath(bins[..], names, Text.Pieces(ptr, ':'), host) == FindBinaryPathsSpec(pathEnv, names, host)
      invariant unchanged(err)
      decreases Text.Remaining(ptr)
    {
      var dir;
      dir, ptr := Text.Strsep(ptr, ':');
      var failure := ScanDir(bins, names, dir.value, host);
      if failure.Some? {
        Record(err, failure.value.0, failure.value.1);
        return -1, bins;
      }
    }
    return 0, bins;
  }

  /** The inner loop of find_binary_paths over the binaries not yet found, for one entry. */
  method ScanDir(bins: array<Option<string>>, names: seq<string>, entry: string, host: Host)
    returns (failure: Option<(int, string)>)
    requires bins.Length == |names|
    modifies bins
    ensures var s := VisitDir(old(bins[..]), names, entry, host, 0);
      failure == Fault(s) && (s.Done? ==> bins[..] == s.value)
  {
    var dir := if entry == "" then "." else entry;
    for i := 0 to |names|
      invariant VisitDir(bins[..], names, entry, host, i) == VisitDir(old(bins[..]), names, entry, host, 0)
    {
      if bins[i].Some? {
        continue;
      }
      var joined := Utils.PathJoin(dir, names[i]);
      if joined.error.Some? || !host.executable(joined.buf) {
        continue;
      }
      var resolved := host.realpath(joined.buf);
      if resolved.Failed? {
        return Some((resolved.code, resolved.msg));
      }
      bins[i] := Some(resolved.value);
    }
    return None;
  }

  // ---- select_libraries ----

  /**
   * What the ELF checks of select_libraries return for one candidate: whether elftool_open
   * succeeded, then elftool_has_abi for the 2.3.99 ABI and elftool_has_dependency on the
   * GL and EGL cores, each 1 (true), 0 (false) or -1 (error).
   */
  datatype ElfFacts = ElfFacts(loads: bool, newTlsAbi: int, glcore: int, eglcore: int)

  /** GNU basename: the text after the last '/'. */
  function Basename(path: string): (r: string)
    ensures '/' !in r
  {
    ErrorGeneric.LastIndexOfMeaning(path, '/');
    match ErrorGeneric.LastIndexOf(path, '/')
    case None => path
    case Some(i) => path[i + 1..]
  }

  /**
   * select_libraries: 1 to take the candidate at `altPath`, 0 to skip it, -1 on error. The
   * TLS library must have the new ABI, every library must end in the kernel module's
   * version, and the compat GL libraries must depend on the GL or EGL core.
   */
  function SelectLibrary(kmodVersion: string, altPath: string, elf: ElfFacts): (rv: int)
  {
    if !elf.loads then -1
    else
      var lib := Basename(altPath);
      if Utils.Strpcmp(lib, "libnvidia-tls.so") == 0 && elf.newTlsAbi != 1 then elf.newTlsAbi
      else if Utils.Strrcmp(lib, kmodVersion) != 0 then 0
      else if Utils.Matches(lib, GraphicLibsCompat) then (if elf.glcore != 0 then elf.glcore else elf.eglcore)
      else 1
  }

  /**
   * A candidate is taken exactly when it opens, carries the driver's version at the end of
   * its name, has the new ABI if it is the TLS library, and, if it is a compat GL library,
   * depends on the GL core (or, lacking that, on the EGL core).
   */
  lemma SelectedLibraries(kmodVersion: string, altPath: string, elf: ElfFacts)
    ensures var lib := Basename(altPath);
      SelectLibrary(kmodVersion, altPath, elf) == 1 <==>
        elf.loads && Text.HasSuffix(lib, kmodVersion) &&
        ("libnvidia-tls.so" <= lib ==> elf.newTlsAbi == 1) &&
        (Utils.Matches(lib, GraphicLibsCompat) ==> elf.glcore == 1 || (elf.glcore == 0 && elf.eglcore == 1))
  {
    var lib := Basename(altPath);
    Utils.StrpcmpPrefix(lib, "libnvidia-tls.so");
    Utils.StrrcmpSuffix(lib, kmodVersion);
  }

  // ---- find_library_paths and lookup_libraries ----

  /**
   * The ld.so.cache as find_library_paths uses it: ldcache_open, ldcache_resolve of the
   * names for the 64-bit (false) or 32-bit (true) architecture with select_libraries as
   * the selector, and ldcache_close.
   */
  datatype Ldcache = Ldcache(open: Call<()>, resolve: (bool, seq<string>) -> Call<seq<Option<string>>>, close: Call<()>)

  /** The `n` slots of an array ldcache_resolve filled from `s`; slots it did not fill stay NULL. */
  function Slots(s: seq<Option<string>>, n: nat): (r: seq<Option<string>>)
    ensures |r| == n
  {
    seq(n, j requires 0 <= j < n => if j < |s| then s[j] else None)
  }

  /** The 64-bit slots, and the 32-bit ones with compat32. */
  function ResolveAll(flags: Options.Flags, names: seq<string>, ld: Ldcache): (r: Call<(seq<Option<string>>, seq<Option<string>>)>)
    ensures r.Done? ==> |r.value.0| == |names|
    ensures r.Done? && !Has(flags, Options.OptCompat32) ==> r.value.1 == []
  {
    match ld.resolve(false, names)
    case Failed(code, msg) => Failed(code, msg)
    case Done(libs) =>
      if !Has(flags, Options.OptCompat32) then Done((Slots(libs, |names|), []))
      else
        match ld.resolve(true, names)
        case Failed(code, msg) => Failed(code, msg)
        case Done(libs32) => Done((Slots(libs, |names|), Slots(libs32, |names|)))
  }

  /**
   * find_library_paths: the cache opened, resolved, and closed. A failed close fails the
   * lookup and its error is the one left, whatever the resolution did.
   */
  function FindLibraryPathsSpec(flags: Options.Flags, names: seq<string>, ld: Ldcache)
    : (r: Call<(seq<Option<string>>, seq<Option<string>>)>)
  {
    match ld.open
    case Failed(code, msg) => Failed(code, msg)
    case Done(_) =>
      match ld.close
      case Failed(code, msg) => Failed(code, msg)
      case Done(_) => ResolveAll(flags, names, ld)
  }

  /** A cache that opens but does not close fails with the close's error. */
  lemma CloseFailureWins(flags: Options.Flags, names: seq<string>, ld: Ldcache)
    requires ld.open.Done? && ld.close.Failed?
    ensures FindLibraryPathsSpec(flags, names, ld) == Failed(ld.close.code, ld.close.msg)
  {
  }

  /** lookup_libraries: nothing looked up without a library option; what was found, packed. */
  function LookupLibrariesSpec(flags: Options.Flags, ld: Ldcache): (r: Call<(seq<Option<string>>, seq<Option<string>>)>)
  {
    if !Has(flags, LibFlags) then Done(([], []))
    else
      match FindLibraryPathsSpec(flags, LibraryNames(flags), ld)
      case Failed(code, msg) => Failed(code, msg)
      case Done((libs, libs32)) => Done((Utils.NonNull(libs), Utils.NonNull(libs32)))
  }

  /**
   * The libraries found are the non-NULL slots: never more than the names listed, none for
   * 32 bits without compat32, and nothing at all (nor any cache access) without a library
   * option.
   */
  lemma LibrariesFound(flags: Options.Flags, ld: Ldcache)
    ensures var r := LookupLibrariesSpec(flags, ld);
      r.Done? ==>
        |r.value.0| <= |LibraryNames(flags)| && |r.value.1| <= |LibraryNames(flags)| &&
        (forall k :: 0 <= k < |r.value.0| ==> r.value.0[k].Some?) &&
        (forall k :: 0 <= k < |r.value.1| ==> r.value.1[k].Some?)
    ensures !Has(flags, Options.OptCompat32) && LookupLibrariesSpec(flags, ld).Done? ==> LookupLibrariesSpec(flags, ld).value.1 == []
    ensures !Has(flags, LibFlags) ==> LookupLibrariesSpec(flags, ld) == Done(([], []))
  {
    var r := FindLibraryPathsSpec(flags, LibraryNames(flags), ld);
    if Has(flags, LibFlags) && r.Done? {
      Utils.NonNullEntries(r.value.0);
      Utils.NonNullEntries(r.value.1);
      Utils.PackedPermutes(r.value.0);
      Utils.PackedPermutes(r.value.1);
    }
  }

  /** find_library_paths: two arrays filled by ldcache_resolve, then the cache closed. */
  method FindLibraryPaths(err: ErrorGeneric.Error, flags: Options.Flags, names: seq<string>, ld: Ldcache)
    returns (rv: int, libs: array?<Option<string>>, libs32: array?<Option<string>>)
    modifies err
    ensures libs != null ==> fresh(libs)
    ensures libs32 != null ==> fresh(libs32)
    ensures var s := FindLibraryPathsSpec(flags, names, ld);
      (rv == 0 <==> s.Done?) && (rv == 0 || rv == -1) && (err.code, err.msg) == After(old((err.code, err.msg)), Fault(s)) &&
      (s.Done? ==> libs != null && libs32 != null && libs != libs32 && libs[..] == s.value.0 && libs32[..] == s.value.1)
  {
    libs, libs32 := null, null;
    if ld.open.Failed? {
      Record(err, ld.open.code, ld.open.msg);
      rv := -1;
      return;
    }
    rv := 0;
    var resolved := ld.resolve(false, names);
    if resolved.Failed? {
      Record(err, resolved.code, resolved.msg);
      rv := -1;
    } else {
      var slots := Slots(resolved.value, |names|);
      libs := new Option<string>[|names|](j requires 0 <= j < |names| => slots[j]);
      libs32 := new Option<string>[0];
      if Has(flags, Options.OptCompat32) {
        var resolved32 := ld.resolve(true, names);
        if resolved32.Failed? {
          Record(err, resolved32.code, resolved32.msg);
          rv := -1;
        } else {
          var slots32 := Slots(resolved32.value, |names|);
          libs32 := new Option<string>[|names|](j requires 0 <= j < |names| => slots32[j]);
        }
      }
    }
    if ld.close.Failed? {
      Record(err, ld.close.code, ld.close.msg);
      rv := -1;
      return;
    }
    if rv < 0 {
      return;
    }
    assert libs[..] == ResolveAll(flags, names, ld).value.0;
  }

  /** lookup_libraries: the names listed, looked up, and both arrays packed with array_pack. */
  method LookupLibraries(err: ErrorGeneric.Error, flags: Options.Flags, ld: Ldcache)
    returns (found: Option<(seq<Option<string>>, seq<Option<string>>)>)
    modifies err
    ensures var s := LookupLibrariesSpec(flags, ld);
      (found.Some? <==> s.Done?) && (s.Done? ==> found.value == s.value) &&
      (err.code, err.msg) == After(old((err.code, err.msg)), Fault(s))
  {
    var names := CollectLibraries(flags);
    if !Has(flags, LibFlags) {
      return Some(([], []));
    }
    var rv, libs, libs32 := FindLibraryPaths(err, flags, names, ld);
    if rv < 0 {
      return None;
    }
    var packed := Pack(libs);
    var packed32 := Pack(libs32);
    return Some((packed, packed32));
  }

  /** array_pack on a looked-up array, and the entries it leaves in use. */
  method Pack(arr: array<Option<string>>) returns (found: seq<Option<string>>)
    modifies arr
    ensures found == Utils.NonNull(old(arr[..]))
  {
    ghost var slots := arr[..];
    assert arr[..arr.Length] == slots;
    var n := Utils.ArrayPack(arr, arr.Length);
    PackedPrefix(slots);
    assert arr[..n] == arr[..arr.Length][..n];
    return arr[..n];
  }

  /** The first entries of a packed array are the non-NULL ones. */
  lemma PackedPrefix(s: seq<Option<string>>)
    ensures |Utils.NonNull(s)| <= |s| && Utils.Packed(s)[..|Utils.NonNull(s)|] == Utils.NonNull(s)
  {
    Utils.PackedPermutes(s);
  }

  // ---- lookup_binaries ----

  /** lookup_binaries: nothing searched without a binary option; what was found, packed. */
  function LookupBinariesSpec(flags: Options.Flags, pathEnv: Option<string>, host: Host): (r: Call<seq<Option<string>>>)
  {
    if !Has(flags, BinFlags) then Done([])
    else
      match FindBinaryPathsSpec(pathEnv, BinaryNames(flags), host)
      case Failed(code, msg) => Failed(code, msg)
      case Done(bins) => Done(Utils.NonNull(bins))
  }

  /**
   * The binaries found are non-NULL and never more than the names listed; without a binary
   * option nothing is searched, and with one an unset PATH fails the lookup, even when
   * no-mps leaves no name to search for.
   */
  lemma BinariesFound(flags: Options.Flags, pathEnv: Option<string>, host: Host)
    ensures var r := LookupBinariesSpec(flags, pathEnv, host);
      r.Done? ==> |r.value| <= |BinaryNames(flags)| && forall k :: 0 <= k < |r.value| ==> r.value[k].Some?
    ensures !Has(flags, BinFlags) ==> LookupBinariesSpec(flags, pathEnv, host) == Done([])
    ensures Has(flags, BinFlags) && pathEnv.None? ==> LookupBinariesSpec(flags, pathEnv, host) == Failed(-1, PathNotFound)
  {
    var r := FindBinaryPathsSpec(pathEnv, BinaryNames(flags), host);
    if Has(flags, BinFlags) && r.Done? {
      Utils.NonNullEntries(r.value);
      Utils.PackedPermutes(r.value);
    }
  }

  /** Compute binaries under no-mps, without utility, list no name at all. */
  lemma NoMpsListsNothing(flags: Options.Flags)
    requires Has(flags, Options.OptComputeBins) && Has(flags, Options.OptNoMps) && !Has(flags, Options.OptUtilityBins)
    ensures Has(flags, BinFlags) && BinaryNames(flags) == []
  {
    assert flags * Options.OptComputeBins <= flags * BinFlags;
  }

  /** lookup_binaries: the names listed, searched along PATH, and packed with array_pack. */
  method LookupBinaries(err: ErrorGeneric.Error, flags: Options.Flags, pathEnv: Option<string>, host: Host)
    returns (found: Option<seq<Option<string>>>)
    modifies err
    ensures var s := LookupBinariesSpec(flags, pathEnv, host);
      (found.Some? <==> s.Done?) && (s.Done? ==> found.value == s.value) &&
      (err.code, err.msg) == After(old((err.code, err.msg)), Fault(s))
  {
    var names := CollectBinaries(flags);
    if !Has(flags, BinFlags) {
      return Some([]);
    }
    var rv, bins := FindBinaryPaths(err, pathEnv, names, host);
    if rv < 0 {
      return None;
    }
    var packed := Pack(bins);
    return Some(packed);
  }

  // ---- find_device_node and lookup_devices ----

  const CtlDevicePath: string := "/dev/nvidiactl"
  const UvmDevicePath: string := "/dev/nvidia-uvm"
  const UvmToolsDevicePath: string := "/dev/nvidia-uvm-tools"

  /** A device node: its path and the device number, as major and minor. */
  datatype DeviceNode = DeviceNode(path: string, major: nat, minor: nat)

  /** The control device every driver listing starts with. */
  const CtlNode: DeviceNode := DeviceNode(CtlDevicePath, NvDeviceMajor, NvCtlDeviceMinor)

  /** xstat of a path: the major and minor of st_rdev, or the errno and message it set. */
  type Stat = string -> Call<(nat, nat)>

  /** A stat failure other than a missing file. */
  predicate HardFailure(c: Call<(nat, nat)>)
  {
    c.Failed? && c.code != Enoent
  }

  /** find_device_node: the node when stat succeeds, none when the path is missing, an error otherwise. */
  function DeviceAt(path: string, stat: Stat): (r: Call<seq<DeviceNode>>)
  {
    match stat(path)
    case Done((major, minor)) => Done([DeviceNode(path, major, minor)])
    case Failed(code, msg) => if code == Enoent then Done([]) else Failed(code, msg)
  }

  /** lookup_devices: the control device, then the UVM devices present, unless no-uvm. */
  function LookupDevicesSpec(flags: Options.Flags, stat: Stat): (r: Call<seq<DeviceNode>>)
  {
    if Has(flags, Options.OptNoUvm) then Done([CtlNode])
    else
      match DeviceAt(UvmDevicePath, stat)
      case Failed(code, msg) => Failed(code, msg)
      case Done(uvm) =>
        match DeviceAt(UvmToolsDevicePath, stat)
        case Failed(code, msg) => Failed(code, msg)
        case Done(tools) => Done([CtlNode] + uvm + tools)
  }

  /**
   * The error record after lookup_devices: xstat sets it on every failed stat, so a
   * missing UVM device leaves its error behind even though the lookup succeeds.
   */
  function DevicesAfter(before: ErrorState, flags: Options.Flags, stat: Stat): ErrorState
  {
    if Has(flags, Options.OptNoUvm) then before
    else
      var first := After(before, Fault(stat(UvmDevicePath)));
      if HardFailure(stat(UvmDevicePath)) then first else After(first, Fault(stat(UvmToolsDevicePath)))
  }

  /**
   * The devices listed start with the control device, and a UVM device is listed exactly
   * when its stat succeeds; the lookup fails exactly when a stat fails other than with
   * ENOENT, and under no-uvm nothing is looked at.
   */
  lemma DevicesListed(flags: Options.Flags, stat: Stat)
    ensures var r := LookupDevicesSpec(flags, stat);
      r.Done? ==>
        1 <= |r.value| <= 3 && r.value[0] == CtlNode &&
        forall k :: 1 <= k < |r.value| ==> stat(r.value[k].path) == Done((r.value[k].major, r.value[k].minor))
    ensures Has(flags, Options.OptNoUvm) ==> LookupDevicesSpec(flags, stat) == Done([CtlNode])
    ensures !Has(flags, Options.OptNoUvm) ==>
      (LookupDevicesSpec(flags, stat).Failed? <==>
        HardFailure(stat(UvmDevicePath)) || HardFailure(stat(UvmToolsDevicePath)))
    ensures var r := LookupDevicesSpec(flags, stat);
      !Has(flags, Options.OptNoUvm) && r.Done? ==>
        |r.value| == 1 + (if stat(UvmDevicePath).Done? then 1 else 0) + (if stat(UvmToolsDevicePath).Done? then 1 else 0)
  {
  }

  /** A missing UVM device is skipped, and its stat error is what the record holds after. */
  lemma MissingUvmRecorded(before: ErrorState, flags: Options.Flags, stat: Stat)
    requires !Has(flags, Options.OptNoUvm)
    requires stat(UvmDevicePath).Failed? && stat(UvmDevicePath).code == Enoent && stat(UvmToolsDevicePath).Done?
    ensures LookupDevicesSpec(flags, stat) ==
      Done([CtlNode, DeviceNode(UvmToolsDevicePath, stat(UvmToolsDevicePath).value.0, stat(UvmToolsDevicePath).value.1)])
    ensures DevicesAfter(before, flags, stat) == (Enoent, Some(stat(UvmDevicePath).msg))
  {
    var tools := DeviceNode(UvmToolsDevicePath, stat(UvmToolsDevicePath).value.0, stat(UvmToolsDevicePath).value.1);
    assert DeviceAt(UvmToolsDevicePath, stat) == Done([tools]);
    assert [CtlNode] + [] + [tools] == [CtlNode, tools];
  }

  /** find_device_node: 1 and the node, 0 for a missing path, -1 on any other stat error. */
  method FindDeviceNode(err: ErrorGeneric.Error, path: string, stat: Stat) returns (rv: int, node: Option<DeviceNode>)
    modifies err
    ensures var s := DeviceAt(path, stat);
      (rv == -1 <==> s.Failed?) && (rv == 1 <==> node.Some?) && (rv == -1 || rv == 0 || rv == 1) &&
      (s.Done? ==> s.value == if rv == 1 then [node.value] else []) &&
      (err.code, err.msg) == After(old((err.code, err.msg)), Fault(stat(path)))
  {
    var st := stat(path);
    if st.Done? {
      return 1, Some(DeviceNode(path, st.value.0, st.value.1));
    }
    Record(err, st.code, st.msg);
    rv := if st.code == Enoent then 0 else -1;
    return rv, None;
  }

  /** lookup_devices: an array of 1 + has_uvm + has_uvm_tools nodes, the control device first. */
  method LookupDevices(err: ErrorGeneric.Error, flags: Options.Flags, stat: Stat) returns (devs: Option<seq<DeviceNode>>)
    modifies err
    ensures var s := LookupDevicesSpec(flags, stat);
      (devs.Some? <==> s.Done?) && (s.Done? ==> devs.value == s.value) &&
      (err.code, err.msg) == DevicesAfter(old((err.code, err.msg)), flags, stat)
  {
    var hasUvm, hasUvmTools := 0, 0;
    var uvm: Option<DeviceNode>, uvmTools: Option<DeviceNode> := None, None;
    if !Has(flags, Options.OptNoUvm) {
      hasUvm, uvm := FindDeviceNode(err, UvmDevicePath, stat);
      if hasUvm < 0 {
        return None;
      }
      hasUvmTools, uvmTools := FindDeviceNode(err, UvmToolsDevicePath, stat);
      if hasUvmTools < 0 {
        return None;
      }
    }
    var nodes := new DeviceNode[1 + hasUvm + hasUvmTools](_ => CtlNode);
    var node := 0;
    nodes[node] := CtlNode;
    if hasUvm != 0 {
      node := node + 1;
      nodes[node] := uvm.value;
    }
    if hasUvmTools != 0 {
      node := node + 1;
      nodes[node] := uvmTools.value;
    }
    return Some(nodes[..]);
  }

  // ---- find_ipc_path and lookup_ipcs ----

  const PersistencedSocket: string := "/var/run/nvidia-persistenced/socket"
  const MpsPipeDir: string := "/tmp/nvidia-mps"

  /**
   * What lookup_ipcs consults: file_exists of a path (true, false, or the error it set),
   * xrealpath, and the value of CUDA_MPS_PIPE_DIRECTORY in a secure environment.
   */
  datatype IpcHost = IpcHost(fileExists: string -> Call<bool>, realpath: string -> Call<string>, mpsPipeEnv: Option<string>)

  /** find_ipc_path: the real path of an existing IPC path, NULL for a missing one. */
  function IpcAt(path: string, h: IpcHost): (r: Call<Option<string>>)
  {
    match h.fileExists(path)
    case Failed(code, msg) => Failed(code, msg)
    case Done(present) =>
      if !present then Done(None)
      else
        match h.realpath(path)
        case Failed(code, msg) => Failed(code, msg)
        case Done(p) => Done(Some(p))
  }

  /** The MPS pipe directory: the environment's, else NV_MPS_PIPE_DIR. */
  function MpsDir(h: IpcHost): string
  {
    h.mpsPipeEnv.UnwrapOr(MpsPipeDir)
  }

  /** The slot an enabled IPC path takes: one entry, NULL when the path is missing. */
  function IpcSlot(enabled: bool, path: string, h: IpcHost): (r: Call<seq<Option<string>>>)
    ensures r.Done? ==> |r.value| <= 1
  {
    if !enabled then Done([])
    else
      match IpcAt(path, h)
      case Failed(code, msg) => Failed(code, msg)
      case Done(ipc) => Done([ipc])
  }

  /** lookup_ipcs: an array of two slots filled in order, then packed with array_pack. */
  function LookupIpcsSpec(flags: Options.Flags, h: IpcHost): (r: Call<seq<Option<string>>>)
  {
    match IpcSlot(!Has(flags, Options.OptNoPersistenced), PersistencedSocket, h)
    case Failed(code, msg) => Failed(code, msg)
    case Done(persistenced) =>
      match IpcSlot(!Has(flags, Options.OptNoMps), MpsDir(h), h)
      case Failed(code, msg) => Failed(code, msg)
      case Done(mps) => Done(Utils.NonNull(Slots(persistenced + mps, 2)))
  }

  /** NULL slots past the filled ones leave nothing to pack. */
  lemma {:induction false} SlotsNonNull(s: seq<Option<string>>, n: nat)
    requires |s| <= n
    ensures Utils.NonNull(Slots(s, n)) == Utils.NonNull(s)
    decreases n
  {
    if n > |s| {
      SlotsNonNull(s, n - 1);
      assert Slots(s, n) == Slots(s, n - 1) + [None];
      Utils.NonNullSnoc(Slots(s, n - 1), None);
    } else {
      assert Slots(s, n) == s;
    }
  }

  /**
   * At most two IPC paths are listed, all present; with both disabled none, and the
   * persistenced socket, when it exists and resolves, comes first.
   */
  lemma IpcsListed(flags: Options.Flags, h: IpcHost)
    ensures var r := LookupIpcsSpec(flags, h);
      r.Done? ==> |r.value| <= 2 && forall k :: 0 <= k < |r.value| ==> r.value[k].Some?
    ensures Has(flags, Options.OptNoPersistenced) && Has(flags, Options.OptNoMps) ==> LookupIpcsSpec(flags, h) == Done([])
    ensures var r := LookupIpcsSpec(flags, h);
      !Has(flags, Options.OptNoPersistenced) && IpcAt(PersistencedSocket, h).Done? && IpcAt(PersistencedSocket, h).value.Some? && r.Done? ==>
        r.value[0] == IpcAt(PersistencedSocket, h).value
  {
    var r := LookupIpcsSpec(flags, h);
    if r.Done? {
      var persistenced := IpcSlot(!Has(flags, Options.OptNoPersistenced), PersistencedSocket, h).value;
      var mps := IpcSlot(!Has(flags, Options.OptNoMps), MpsDir(h), h).value;
      var slots := Slots(persistenced + mps, 2);
      Utils.NonNullEntries(slots);
      Utils.PackedPermutes(slots);
      SlotsNonNull(persistenced + mps, 2);
      if persistenced != [] && persistenced[0].Some? {
        assert (persistenced + mps)[0] == persistenced[0];
      }
    }
  }

  /** With only MPS enabled, the listing is the real path of the environment's directory, or of /tmp/nvidia-mps. */
  lemma MpsPipeOverride(flags: Options.Flags, h: IpcHost)
    requires Has(flags, Options.OptNoPersistenced) && !Has(flags, Options.OptNoMps)
    ensures LookupIpcsSpec(flags, h) ==
      match IpcAt(MpsDir(h), h)
      case Failed(code, msg) => Failed(code, msg)
      case Done(ipc) => Done(if ipc.Some? then [ipc] else [])
  {
    if IpcAt(MpsDir(h), h).Done? {
      var ipc := IpcAt(MpsDir(h), h).value;
      assert [] + [ipc] == [ipc];
      SlotsNonNull([ipc], 2);
      assert [ipc][1..] == [];
      assert IpcSlot(false, PersistencedSocket, h) == Done([]);
      assert IpcSlot(true, MpsDir(h), h) == Done([ipc]);
      assert Utils.NonNull([ipc]) == if ipc.Some? then [ipc] else [];
    }
  }

  /** find_ipc_path: 0 with the real path or NULL, -1 with the error set. */
  method FindIpcPath(err: ErrorGeneric.Error, path: string, h: IpcHost) returns (rv: int, ipc: Option<string>)
    modifies err
    ensures var s := IpcAt(path, h);
      (rv == 0 <==> s.Done?) && (rv == 0 || rv == -1) && (s.Done? ==> ipc == s.value) &&
      (err.code, err.msg) == After(old((err.code, err.msg)), Fault(s))
  {
    var present := h.fileExists(path);
    if present.Failed? {
      Record(err, present.code, present.msg);
      return -1, None;
    }
    if !present.value {
      return 0, None;
    }
    var resolved := h.realpath(path);
    if resolved.Failed? {
      Record(err, resolved.code, resolved.msg);
      return -1, None;
    }
    return 0, Some(resolved.value);
  }

  /** lookup_ipcs: array_new of two slots, filled through a moving pointer, then packed. */
  method LookupIpcs(err: ErrorGeneric.Error, flags: Options.Flags, h: IpcHost) returns (ipcs: Option<seq<Option<string>>>)
    modifies err
    ensures var s := LookupIpcsSpec(flags, h);
      (ipcs.Some? <==> s.Done?) && (s.Done? ==> ipcs.value == s.value) &&
      (err.code, err.msg) == After(old((err.code, err.msg)), Fault(s))
  {
    var slots := new Option<string>[2](_ => None);
    var ptr := 0;
    ghost var filled: seq<Option<string>> := [];
    ghost var persistenced := IpcSlot(!Has(flags, Options.OptNoPersistenced), PersistencedSocket, h);
    if !Has(flags, Options.OptNoPersistenced) {
      var rv, ipc := FindIpcPath(err, PersistencedSocket, h);
      if rv < 0 {
        return None;
      }
      slots[ptr] := ipc;
      ptr := ptr + 1;
      filled := [ipc];
    }
    assert slots[..] == Slots(filled, 2) && persistenced == Done(filled);
    ghost var mpsSlot := IpcSlot(!Has(flags, Options.OptNoMps), MpsDir(h), h);
    ghost var prior := filled;
    if !Has(flags, Options.OptNoMps) {
      var mps := if h.mpsPipeEnv.Some? then h.mpsPipeEnv.value else MpsPipeDir;
      var rv, ipc := FindIpcPath(err, mps, h);
      if rv < 0 {
        return None;
      }
      slots[ptr] := ipc;
      ptr := ptr + 1;
      filled := filled + [ipc];
    }
    assert slots[..] == Slots(filled, 2) && mpsSlot.Done? && filled == prior + mpsSlot.value;
    var packed := Pack(slots);
    return Some(packed);
  }

  // ---- nvc_driver_info_new ----

  /** What nvc_driver_info_new returns: versions, then the packed lists of what was found. */
  datatype DriverInfo = DriverInfo(kmodVersion: string, cudaVersion: string, libs: seq<Option<string>>,
                                   libs32: seq<Option<string>>, bins: seq<Option<string>>, devs: seq<DeviceNode>,
                                   ipcs: seq<Option<string>>)

  /**
   * What nvc_driver_info_new consults: the driver's RM and CUDA version queries, the
   * ld.so.cache, PATH and the host's executables, stat, and the IPC paths.
   */
  datatype DriverView = DriverView(rmVersion: Call<string>, cudaVersion: Call<string>, ld: Ldcache,
                                   pathEnv: Option<string>, host: Host, stat: Stat, ipc: IpcHost)

  /** nvc_driver_info_new after the options: the queries and lookups in order, the first failure ending it. */
  function DriverInfoFrom(before: ErrorState, flags: Options.Flags, v: DriverView): (r: (Option<DriverInfo>, ErrorState))
  {
    if v.rmVersion.Failed? then (None, After(before, Fault(v.rmVersion)))
    else if v.cudaVersion.Failed? then (None, After(before, Fault(v.cudaVersion)))
    else
      var libs := LookupLibrariesSpec(flags, v.ld);
      if libs.Failed? then (None, After(before, Fault(libs)))
      else
        var bins := LookupBinariesSpec(flags, v.pathEnv, v.host);
        if bins.Failed? then (None, After(before, Fault(bins)))
        else
          var devs := LookupDevicesSpec(flags, v.stat);
          var afterDevs := DevicesAfter(before, flags, v.stat);
          if devs.Failed? then (None, afterDevs)
          else
            var ipcs := LookupIpcsSpec(flags, v.ipc);
            if ipcs.Failed? then (None, After(afterDevs, Fault(ipcs)))
            else
              (Some(DriverInfo(v.rmVersion.value, v.cudaVersion.value, libs.value.0, libs.value.1, bins.value,
                               devs.value, ipcs.value)), afterDevs)
  }

  /** nvc_driver_info_new on an initialized context: the options (default_driver_opts when NULL), then the lookups. */
  function DriverInfoSpec(before: ErrorState, opts: Option<string>, argMax: nat, v: DriverView): (r: (Option<DriverInfo>, ErrorState))
  {
    match Options.Parse(opts.UnwrapOr(DefaultDriverOpts), Options.DriverOpts, argMax)
    case Failure(msg) => (None, (-1, Some(msg)))
    case Success(flags) => DriverInfoFrom(before, flags, v)
  }

  /**
   * A driver listing carries the two versions, only non-NULL paths, the control device
   * first, and at most the names the options list; with no-uvm only the control device.
   */
  lemma DriverInfoListed(before: ErrorState, flags: Options.Flags, v: DriverView)
    ensures var r := DriverInfoFrom(before, flags, v);
      r.0.Some? ==>
        r.0.value.kmodVersion == v.rmVersion.value && r.0.value.cudaVersion == v.cudaVersion.value &&
        |r.0.value.libs| <= |LibraryNames(flags)| && |r.0.value.bins| <= |BinaryNames(flags)| &&
        (forall k :: 0 <= k < |r.0.value.libs| ==> r.0.value.libs[k].Some?) &&
        (forall k :: 0 <= k < |r.0.value.bins| ==> r.0.value.bins[k].Some?) &&
        r.0.value.devs[0] == CtlNode && |r.0.value.ipcs| <= 2 &&
        (Has(flags, Options.OptNoUvm) ==> r.0.value.devs == [CtlNode])
    ensures DriverInfoFrom(before, flags, v).0.None? ==> DriverInfoFrom(before, flags, v).1.1.Some?
  {
    LibrariesFound(flags, v.ld);
    BinariesFound(flags, v.pathEnv, v.host);
    DevicesListed(flags, v.stat);
    IpcsListed(flags, v.ipc);
  }

  /** nvc_driver_info_new: a NULL or uninitialized context or bad options stop it; otherwise DriverInfoSpec. */
  method DriverInfoNew(ctx: Context?, opts: Option<string>, argMax: nat, v: DriverView) returns (info: Option<DriverInfo>)
    modifies if ctx != null then {ctx.err} else {}
    ensures ctx == null ==> info.None?
    ensures ctx != null && !ctx.initialized ==>
      info.None? && ctx.err.code == -1 && ctx.err.msg == Some("context uninitialized")
    ensures ctx != null && ctx.initialized ==>
      var s := DriverInfoSpec(old((ctx.err.code, ctx.err.msg)), opts, argMax, v);
      info == s.0 && (ctx.err.code, ctx.err.msg) == s.1
  {
    var rc := ValidateContext(ctx);
    if rc < 0 {
      return None;
    }
    var options := if opts.Some? then opts.value else DefaultDriverOpts;
    var parsed := Options.OptionsParse(options, Options.DriverOpts, argMax);
    if parsed.Failure? {
      var _ := ErrorGeneric.SetX(ctx.err, parsed.error);
      return None;
    }
    var flags := parsed.value;
    if v.rmVersion.Failed? {
      Record(ctx.err, v.rmVersion.code, v.rmVersion.msg);
      return None;
    }
    if v.cudaVersion.Failed? {
      Record(ctx.err, v.cudaVersion.code, v.cudaVersion.msg);
      return None;
    }
    var libs := LookupLibraries(ctx.err, flags, v.ld);
    if libs.None? {
      return None;
    }
    var bins := LookupBinaries(ctx.err, flags, v.pathEnv, v.host);
    if bins.None? {
      return None;
    }
    var devs := LookupDevices(ctx.err, flags, v.stat);
    if devs.None? {
      return None;
    }
    var ipcs := LookupIpcs(ctx.err, flags, v.ipc);
    if ipcs.None? {
      return None;
    }
    return Some(DriverInfo(v.rmVersion.value, v.cudaVersion.value, libs.value.0, libs.value.1, bins.value,
                           devs.value, ipcs.value));
  }

  // ---- nvc_device_info_new ----

  /** What the driver reports for one GPU: its UUID, PCI bus id and device minor number. */
  datatype GpuFacts = GpuFacts(uuid: string, busid: string, minor: nat)

  /** A GPU as nvc_device_info_new lists it, with its device node. */
  datatype Gpu = Gpu(uuid: string, busid: string, node: DeviceNode)

  /**
   * What nvc_device_info_new consults: driver_get_device_count, and for each index the
   * handle, UUID, bus id and minor queries, whose first failure is the one reported.
   */
  datatype DeviceView = DeviceView(count: Call<nat>, probe: nat -> Call<GpuFacts>)

  /** printf's %d of an unsigned int: values from 2^31 on read as negative. */
  function SignedDecimal(u: nat): (r: string)
    ensures r != []
  {
    var w := u % 0x1_0000_0000;
    if w < 0x8000_0000 then Text.Decimal(w) else "-" + Text.Decimal(0x1_0000_0000 - w)
  }

  /** NV_DEVICE_PATH for a minor number. */
  function GpuDevicePath(minor: nat): string
  {
    "/dev/nvidia" + SignedDecimal(minor)
  }

  /** The entry listed for a GPU: its node is /dev/nvidia<minor>, with NV_DEVICE_MAJOR. */
  function GpuOf(f: GpuFacts): Gpu
  {
    Gpu(f.uuid, f.busid, DeviceNode(GpuDevicePath(f.minor), NvDeviceMajor, f.minor))
  }

  /** The loop of nvc_device_info_new from index `i` on, with the GPUs `acc` listed so far. */
  function ProbeFrom(probe: nat -> Call<GpuFacts>, n: nat, i: nat, acc: seq<Gpu>): (r: Call<seq<Gpu>>)
    requires i <= n
    decreases n - i
  {
    if i == n then Done(acc)
    else
      match probe(i)
      case Failed(code, msg) => Failed(code, msg)
      case Done(f) => ProbeFrom(probe, n, i + 1, acc + [GpuOf(f)])
  }

  /** The loop completes exactly when no GPU from `i` on fails to answer. */
  lemma {:induction false} ProbeFromDone(probe: nat -> Call<GpuFacts>, n: nat, i: nat, acc: seq<Gpu>)
    requires i <= n
    ensures ProbeFrom(probe, n, i, acc).Done? <==> forall j :: i <= j < n ==> probe(j).Done?
    decreases n - i
  {
    if i < n && probe(i).Done? {
      ProbeFromDone(probe, n, i + 1, acc + [GpuOf(probe(i).value)]);
    }
  }

  /** A completed loop appends one entry per index, in index order, to what was listed. */
  lemma {:induction false} ProbeFromLists(probe: nat -> Call<GpuFacts>, n: nat, i: nat, acc: seq<Gpu>)
    requires i <= n && |acc| == i && ProbeFrom(probe, n, i, acc).Done?
    ensures var g := ProbeFrom(probe, n, i, acc).value;
      |g| == n && g[..i] == acc &&
      forall j :: i <= j < n ==> probe(j).Done? && g[j] == GpuOf(probe(j).value)
    decreases n - i
  {
    if i < n {
      var next := acc + [GpuOf(probe(i).value)];
      ProbeFromLists(probe, n, i + 1, next);
      var g := ProbeFrom(probe, n, i, acc).value;
      assert g[..|acc|] == g[..|next|][..|acc|];
    }
  }

  /** nvc_device_info_new on an initialized context: the options (default_device_opts when NULL), the count, each GPU. */
  function DeviceInfoSpec(opts: Option<string>, argMax: nat, v: DeviceView): (r: (Option<seq<Gpu>>, Option<(int, string)>))
    ensures r.0.None? <==> r.1.Some?
  {
    match Options.Parse(opts.UnwrapOr(DefaultDeviceOpts), Options.DeviceOpts, argMax)
    case Failure(msg) => (None, Some((-1, msg)))
    case Success(_) =>
      match ListGpus(v)
      case Failed(code, msg) => (None, Some((code, msg)))
      case Done(gpus) => (Some(gpus), None)
  }

  /** The GPUs listed after the options: the count, then each index in turn. */
  function ListGpus(v: DeviceView): Call<seq<Gpu>>
  {
    match v.count
    case Failed(code, msg) => Failed(code, msg)
    case Done(n) => ProbeFrom(v.probe, n, 0, [])
  }

  /**
   * A device listing holds one GPU per index below the count, in order, each with the
   * facts the driver gave and the node /dev/nvidia<minor> of major 195; it is produced
   * exactly when the count and every GPU's queries succeed.
   */
  lemma GpusEnumerated(v: DeviceView)
    ensures ListGpus(v).Done? <==> v.count.Done? && forall j :: 0 <= j < v.count.value ==> v.probe(j).Done?
    ensures var r := ListGpus(v);
      r.Done? ==>
        |r.value| == v.count.value &&
        forall j :: 0 <= j < v.count.value ==>
          r.value[j].uuid == v.probe(j).value.uuid && r.value[j].busid == v.probe(j).value.busid &&
          r.value[j].node == DeviceNode(GpuDevicePath(v.probe(j).value.minor), NvDeviceMajor, v.probe(j).value.minor)
  {
    if v.count.Done? {
      var n := v.count.value;
      ProbeFromDone(v.probe, n, 0, []);
      if ProbeFrom(v.probe, n, 0, []).Done? {
        ProbeFromLists(v.probe, n, 0, []);
        var g := ListGpus(v).value;
        forall j | 0 <= j < n
          ensures g[j].uuid == v.probe(j).value.uuid && g[j].busid == v.probe(j).value.busid &&
            g[j].node == DeviceNode(GpuDevicePath(v.probe(j).value.minor), NvDeviceMajor, v.probe(j).value.minor)
        {
          assert g[j] == GpuOf(v.probe(j).value);
        }
      }
    }
  }

  /** Below 2^31 the device path carries the plain decimal minor. */
  lemma SmallMinorPath(minor: nat)
    requires minor < 0x8000_0000
    ensures GpuDevicePath(minor) == "/dev/nvidia" + Text.Decimal(minor)
  {
    assert minor % 0x1_0000_0000 == minor;
  }

  /** nvc_device_info_new: a NULL or uninitialized context or bad options stop it; otherwise DeviceInfoSpec. */
  method DeviceInfoNew(ctx: Context?, opts: Option<string>, argMax: nat, v: DeviceView) returns (gpus: Option<seq<Gpu>>)
    modifies if ctx != null then {ctx.err} else {}
    ensures ctx == null ==> gpus.None?
    ensures ctx != null && !ctx.initialized ==>
      gpus.None? && ctx.err.code == -1 && ctx.err.msg == Some("context uninitialized")
    ensures ctx != null && ctx.initialized ==>
      var s := DeviceInfoSpec(opts, argMax, v);
      gpus == s.0 && (ctx.err.code, ctx.err.msg) == After(old((ctx.err.code, ctx.err.msg)), s.1)
  {
    var rc := ValidateContext(ctx);
    if rc < 0 {
      return None;
    }
    gpus := ListDevices(ctx.err, opts, argMax, v);
  }

  /** nvc_device_info_new past the context check: the options, the count, then the GPUs. */
  method ListDevices(err: ErrorGeneric.Error, opts: Option<string>, argMax: nat, v: DeviceView) returns (gpus: Option<seq<Gpu>>)
    modifies err
    ensures var s := DeviceInfoSpec(opts, argMax, v);
      gpus == s.0 && (err.code, err.msg) == After(old((err.code, err.msg)), s.1)
  {
    var options := if opts.Some? then opts.value else DefaultDeviceOpts;
    var parsed := Options.OptionsParse(options, Options.DeviceOpts, argMax);
    if parsed.Failure? {
      assert DeviceInfoSpec(opts, argMax, v) == (None, Some((-1, parsed.error)));
      var _ := ErrorGeneric.SetX(err, parsed.error);
      return None;
    }
    if v.count.Failed? {
      assert DeviceInfoSpec(opts, argMax, v) == (None, Some((v.count.code, v.count.msg)));
      Record(err, v.count.code, v.count.msg);
      return None;
    }
    assert ListGpus(v) == ProbeFrom(v.probe, v.count.value, 0, []);
    gpus := ProbeGpus(err, v.probe, v.count.value);
  }

  /** The loop of nvc_device_info_new over the calloc'ed array of `n` GPUs. */
  method ProbeGpus(err: ErrorGeneric.Error, probe: nat -> Call<GpuFacts>, n: nat) returns (gpus: Option<seq<Gpu>>)
    modifies err
    ensures var s := ProbeFrom(probe, n, 0, []);
      (gpus.Some? <==> s.Done?) && (s.Done? ==> gpus.value == s.value) &&
      (err.code, err.msg) == After(old((err.code, err.msg)), Fault(s))
  {
    var listed := new Gpu[n](_ => Gpu("", "", DeviceNode("", 0, 0)));
    for i := 0 to n
      invariant ProbeFrom(probe, n, i, listed[..i]) == ProbeFrom(probe, n, 0, [])
      invariant unchanged(err)
    {
      var facts := probe(i);
      if facts.Failed? {
        Record(err, facts.code, facts.msg);
        return None;
      }
      var minor := facts.value.minor;
      var path := "/dev/nvidia" + SignedDecimal(minor);
      listed[i] := Gpu(facts.value.uuid, facts.value.busid, DeviceNode(path, NvDeviceMajor, minor));
      assert listed[..i + 1] == listed[..i] + [GpuOf(facts.value)];
    }
    assert listed[..n] == listed[..];
    return Some(listed[..]);
  }
}
