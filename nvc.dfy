/**
 * The library context lifecycle (src/nvc.c): nvc_init copies the configuration, opens the
 * mount namespace, optionally loads the kernel modules and starts the driver, and only
 * then marks the context initialized; nvc_shutdown undoes this; nvc_error reports the
 * last error. What the operating system and the driver answer is given as parameters.
 */
module Nvc {
  import opened Wrappers
  import Text
  import Utils
  import Options
  import ErrorGeneric
  import opened NvcInternal

  const U32Max: nat := 0xFFFF_FFFF

  /** (uid_t)-1 and (gid_t)-1: "no id given". */
  const NoId: nat := U32Max

  const LdcachePath: string := "/etc/ld.so.cache"
  const UidMapPath: string := "/proc/self/uid_map"
  const GidMapPath: string := "/proc/self/gid_map"
  const Enoent: int := 2

  /** default_library_opts. */
  const DefaultLibraryOpts: string := ""

  /** The size of init_within_userns's line buffer. */
  const LineBuffer: nat := 64

  /** What an initialized context owns. */
  const AllHeld: set<Resource> := {RootCopy, LdcacheCopy, MntNsFd, DriverSession}

  /** What nvc_config_new returns, and what nvc_init uses for a NULL cfg. */
  const DefaultConfig: Config := Config(None, None, NoId, NoId)

  /** The answer of a call outside this model: a value, or the error code and message it set. */
  datatype Call<T> = Done(value: T) | Failed(code: int, msg: string)

  /** An errno value and its strerror text. */
  datatype Errno = Errno(code: int, text: string)

  /** The error record as a value: code and message. */
  type ErrorState = (int, Option<string>)

  /** The error record after an operation that wrote `w` last, or nothing. */
  function After(before: ErrorState, w: Option<(int, string)>): (r: ErrorState)
    ensures w.Some? ==> r.1.Some?
  {
    match w
    case None => before
    case Some((code, msg)) => (code, Some(msg))
  }

  /** The write of a failed call, none for a successful one. */
  function Fault<T>(c: Call<T>): (w: Option<(int, string)>)
    ensures w.None? <==> c.Done?
  {
    if c.Failed? then Some((c.code, c.msg)) else None
  }

  /** nvc_error: NULL for a NULL context, "unknown error" for a code without a message. */
  function NvcError(ctx: Context?): (r: Option<string>)
    reads if ctx != null then {ctx.err} else {}
    ensures ctx == null ==> r.None?
    ensures ctx != null ==> (r.None? <==> ctx.err.code == 0 && ctx.err.msg.None?)
    ensures ctx != null && ctx.err.msg.Some? ==> r == ctx.err.msg
  {
    if ctx == null then None
    else if ctx.err.code != 0 && ctx.err.msg.None? then Some("unknown error")
    else ctx.err.msg
  }

  /** Records the error a failing outside call set. */
  method Record(err: ErrorGeneric.Error, code: int, msg: string)
    modifies err
    ensures err.code == code && err.msg == Some(msg)
  {
    err.code := code;
    err.msg := Some(msg);
  }

  // ---- init_within_userns ----

  /**
   * What fgets(buf, 64, fs) leaves of a file's contents: the first line with its newline,
   * at most 63 characters; an empty file leaves "".
   */
  function FirstLine(content: string): (r: string)
    ensures r <= content && |r| < LineBuffer
  {
    var n := Text.IndexOf(content, '\n');
    var end := if n < |content| then n + 1 else n;
    content[..if end < LineBuffer then end else LineBuffer - 1]
  }

  /** One "%u" conversion: strtoul's value truncated to 32 bits, and where it stopped. */
  function ScanU32(s: string): (r: Option<(nat, nat)>)
    ensures r.Some? ==> r.value.0 <= U32Max && 0 < r.value.1 <= |s|
  {
    var (v, end) := Text.StrToUMax(s);
    if end == 0 then None else Some((v % (U32Max + 1), end))
  }

  /** sscanf(buf, "%u %u %u", ...) converting all three numbers. */
  function ScanTriple(s: string): Option<(nat, nat, nat)>
  {
    match ScanU32(s)
    case None => None
    case Some((a, i)) =>
      var t := s[i..];
      match ScanU32(t)
      case None => None
      case Some((b, j)) =>
        match ScanU32(t[j..])
        case None => None
        case Some((c, _)) => Some((a, b, c))
  }

  /** init_within_userns's answer: -1, false or true. */
  datatype Userns = UsernsError | NotWithin | Within

  /** A verdict with the error written on the way to it, or "identity map: read on". */
  datatype Step = Decided(verdict: Userns, written: Option<(int, string)>) | Identity

  /** A failed read: a missing file means user namespaces are unsupported. */
  function ReadFailure(code: int, msg: string): (r: Step)
    ensures r.Decided? && r.written == Some((code, msg))
  {
    Decided(if code == Enoent then NotWithin else UsernsError, Some((code, msg)))
  }

  /** One id map: empty or not the identity map of all 2^32 ids means "within". */
  function MapStep(file: Call<string>, path: string): (r: Step)
    ensures r.Decided? && r.verdict == UsernsError ==> r.written.Some?
  {
    match file
    case Failed(code, msg) => ReadFailure(code, msg)
    case Done(content) =>
      var buf := FirstLine(content);
      if buf == "" then Decided(Within, None)
      else
        match ScanTriple(buf)
        case None => Decided(UsernsError, Some((-1, "invalid map file: " + path)))
        case Some((start, pstart, len)) =>
          if start != 0 || pstart != 0 || len != U32Max then Decided(Within, None) else Identity
  }

  /**
   * init_within_userns: the uid map, then the gid map, then setgroups ("deny" means a
   * user namespace). Every -1 comes with an error written.
   */
  function WithinUserns(uidMap: Call<string>, gidMap: Call<string>, setgroups: Call<string>): (r: Step)
    ensures r.Decided?
    ensures r.verdict == UsernsError ==> r.written.Some?
  {
    match MapStep(uidMap, UidMapPath)
    case Decided(v, w) => Decided(v, w)
    case Identity =>
      match MapStep(gidMap, GidMapPath)
      case Decided(v, w) => Decided(v, w)
      case Identity =>
        match setgroups
        case Failed(code, msg) => ReadFailure(code, msg)
        case Done(content) => Decided(if "deny" <= FirstLine(content) then Within else NotWithin, None)
  }

  /** Blanks as the kernel pads the columns of an id map. */
  predicate Blank(w: string)
  {
    forall k :: 0 <= k < |w| ==> w[k] == ' ' || w[k] == '\t'
  }

  /** A line of an id map: three numbers separated by blanks, then a newline. */
  function MapLine(w1: string, a: nat, w2: string, b: nat, w3: string, c: nat): string
  {
    w1 + Text.Decimal(a) + (w2 + Text.Decimal(b) + (w3 + Text.Decimal(c) + "\n"))
  }

  /** A number below 2^32 printed after blanks reads back, stopping at its last digit. */
  lemma {:induction false} ScanU32Reads(w: string, n: nat, rest: string, s: string, e: nat)
    requires Blank(w) && n <= U32Max
    requires rest != [] ==> rest[0] == ' ' || rest[0] == '\t' || rest[0] == '\n'
    requires s == w + Text.Decimal(n) + rest && e == |w| + |Text.Decimal(n)|
    ensures ScanU32(s) == Some((n, e))
  {
    assert rest != [] ==> rest[0] !in Text.Digits;
    Text.CNumberAfterSpaces(w, Text.Decimal(n), rest);
    Text.DecimalRoundTrip(n);
    Text.StrToUMaxPlain(s);
    SmallMod(n);
  }

  /** Truncation to 32 bits keeps a value that fits. */
  lemma SmallMod(n: nat)
    requires n <= U32Max
    ensures n % (U32Max + 1) == n
  {
  }

  /** A line the kernel writes, shorter than the buffer, is read whole and as its three numbers. */
  lemma MapLineReads(w1: string, a: nat, w2: string, b: nat, w3: string, c: nat)
    requires Blank(w1) && Blank(w2) && Blank(w3) && w2 != "" && w3 != ""
    requires a <= U32Max && b <= U32Max && c <= U32Max
    requires |MapLine(w1, a, w2, b, w3, c)| < LineBuffer
    ensures FirstLine(MapLine(w1, a, w2, b, w3, c)) == MapLine(w1, a, w2, b, w3, c)
    ensures ScanTriple(MapLine(w1, a, w2, b, w3, c)) == Some((a, b, c))
  {
    MapLineShape(w1, a, w2, b, w3, c);
    LineWhole(MapLine(w1, a, w2, b, w3, c));
    TripleReads(w1, a, w2, b, w3, c);
  }

  /** The three numbers of a map line are read back by the three conversions. */
  lemma {:induction false} TripleReads(w1: string, a: nat, w2: string, b: nat, w3: string, c: nat)
    requires Blank(w1) && Blank(w2) && Blank(w3) && w2 != "" && w3 != ""
    requires a <= U32Max && b <= U32Max && c <= U32Max
    ensures ScanTriple(MapLine(w1, a, w2, b, w3, c)) == Some((a, b, c))
  {
    var t2 := w3 + Text.Decimal(c) + "\n";
    var t1 := w2 + Text.Decimal(b) + t2;
    var s := w1 + Text.Decimal(a) + t1;
    assert t1[0] == w2[0] && t2[0] == w3[0];
    var i: nat := |w1| + |Text.Decimal(a)|;
    var j: nat := |w2| + |Text.Decimal(b)|;
    var k: nat := |w3| + |Text.Decimal(c)|;
    ScanU32Reads(w1, a, t1, s, i);
    ScanU32Reads(w2, b, t2, t1, j);
    ScanU32Reads(w3, c, "\n", t2, k);
    assert s[i..] == t1;
    assert t1[j..] == t2;
    ScanTripleIs(s, a, i, t1, b, j, t2, c, k);
    assert s == MapLine(w1, a, w2, b, w3, c);
  }

  /** The triple is read when each conversion succeeds where the previous one stopped. */
  lemma ScanTripleIs(s: string, a: nat, i: nat, t: string, b: nat, j: nat, u: string, c: nat, k: nat)
    requires ScanU32(s) == Some((a, i)) && i <= |s| && t == s[i..]
    requires ScanU32(t) == Some((b, j)) && j <= |t| && u == t[j..]
    requires ScanU32(u) == Some((c, k))
    ensures ScanTriple(s) == Some((a, b, c))
  {
  }

  /** A line holding its only newline at the end, shorter than the buffer, is read whole. */
  lemma LineWhole(s: string)
    requires s != [] && s[|s| - 1] == '\n' && |s| < LineBuffer
    requires forall k :: 0 <= k < |s| - 1 ==> s[k] != '\n'
    ensures FirstLine(s) == s
  {
    Text.IndexOfIs(s, '\n', |s| - 1);
  }

  /** The characters of a map line before its newline are digits and blanks. */
  lemma {:induction false} MapLineShape(w1: string, a: nat, w2: string, b: nat, w3: string, c: nat)
    requires Blank(w1) && Blank(w2) && Blank(w3)
    ensures var s := MapLine(w1, a, w2, b, w3, c);
      s[|s| - 1] == '\n' && forall k :: 0 <= k < |s| - 1 ==> s[k] != '\n'
  {
    var s := MapLine(w1, a, w2, b, w3, c);
    var da, db, dc := Text.Decimal(a), Text.Decimal(b), Text.Decimal(c);
    forall k | 0 <= k < |s| - 1 ensures s[k] != '\n' {
      var i := |w1|;
      var j := i + |da|;
      var l := j + |w2|;
      var m := l + |db|;
      var n := m + |w3|;
      if k < i { assert s[k] == w1[k]; }
      else if k < j { assert s[k] == da[k - i] && Text.IsDigit(da[k - i]); }
      else if k < l { assert s[k] == w2[k - j]; }
      else if k < m { assert s[k] == db[k - l] && Text.IsDigit(db[k - l]); }
      else if k < n { assert s[k] == w3[k - m]; }
      else { assert s[k] == dc[k - n] && Text.IsDigit(dc[k - n]); }
    }
  }

  /** Any uid map other than the identity of all ids means a user namespace. */
  lemma MappedUids(w1: string, a: nat, w2: string, b: nat, w3: string, c: nat, gidMap: Call<string>, setgroups: Call<string>)
    requires Blank(w1) && Blank(w2) && Blank(w3) && w2 != "" && w3 != ""
    requires a <= U32Max && b <= U32Max && c <= U32Max && (a, b, c) != (0, 0, U32Max)
    requires |MapLine(w1, a, w2, b, w3, c)| < LineBuffer
    ensures WithinUserns(Done(MapLine(w1, a, w2, b, w3, c)), gidMap, setgroups) == Decided(Within, None)
  {
    MapLineShape(w1, a, w2, b, w3, c);
    MapLineReads(w1, a, w2, b, w3, c);
  }

  /**
   * With identity uid and gid maps, the answer is setgroups: "deny" means a user
   * namespace, anything else the initial namespace.
   */
  lemma IdentityMaps(w1: string, w2: string, w3: string, v1: string, v2: string, v3: string, setgroups: string)
    requires Blank(w1) && Blank(w2) && Blank(w3) && w2 != "" && w3 != ""
    requires Blank(v1) && Blank(v2) && Blank(v3) && v2 != "" && v3 != ""
    requires |MapLine(w1, 0, w2, 0, w3, U32Max)| < LineBuffer
    requires |MapLine(v1, 0, v2, 0, v3, U32Max)| < LineBuffer
    ensures WithinUserns(Done(MapLine(w1, 0, w2, 0, w3, U32Max)), Done(MapLine(v1, 0, v2, 0, v3, U32Max)), Done(setgroups))
      == Decided(if "deny" <= FirstLine(setgroups) then Within else NotWithin, None)
  {
    MapLineShape(w1, 0, w2, 0, w3, U32Max);
    MapLineReads(w1, 0, w2, 0, w3, U32Max);
    MapLineShape(v1, 0, v2, 0, v3, U32Max);
    MapLineReads(v1, 0, v2, 0, v3, U32Max);
  }

  // ---- load_kernel_modules ----

  /**
   * load_kernel_modules up to the fork: a user namespace skips the load, an error in
   * deciding fails, and so does a failed fork. The child's work is not modelled.
   */
  function KmodsSpec(userns: Step, fork: Option<Errno>): (r: (bool, Option<(int, string)>))
    requires userns.Decided? && (userns.verdict == UsernsError ==> userns.written.Some?)
    ensures !r.0 ==> r.1.Some?
  {
    match userns.verdict
    case UsernsError => (false, userns.written)
    case Within => (true, userns.written)
    case NotWithin =>
      match fork
      case Some(e) => (false, Some((e.code, ErrorGeneric.Compose("process creation failed", Some(e.text)))))
      case None => (true, userns.written)
  }

  method LoadKernelModules(err: ErrorGeneric.Error, uidMap: Call<string>, gidMap: Call<string>,
                           setgroups: Call<string>, fork: Option<Errno>) returns (rc: int)
    modifies err
    ensures var k := KmodsSpec(WithinUserns(uidMap, gidMap, setgroups), fork);
      (rc == 0 <==> k.0) && (rc == 0 || rc == -1) && (err.code, err.msg) == After(old((err.code, err.msg)), k.1)
  {
    var userns := WithinUserns(uidMap, gidMap, setgroups);
    if userns.written.Some? {
      Record(err, userns.written.value.0, userns.written.value.1);
    }
    if userns.verdict == UsernsError {
      return -1;
    }
    if userns.verdict == Within {
      return 0;
    }
    if fork.Some? {
      var _ := ErrorGeneric.Set(err, fork.value.code, fork.value.text, "process creation failed");
      return -1;
    }
    return 0;
  }

  // ---- copy_config ----

  /**
   * copy_config: the configuration written into the context and the error of the read
   * that failed, if one did. Root defaults to "/", ldcache to LDCACHE_PATH, and an id of
   * -1 to the kernel's overflow id.
   */
  function CopyConfigSpec(cfg: Config, overflowUid: Call<nat>, overflowGid: Call<nat>): (r: (Config, Option<(int, string)>))
  {
    var root := if cfg.root.Some? then cfg.root.value else "/";
    var ldcache := if cfg.ldcache.Some? then cfg.ldcache.value else LdcachePath;
    var copied := Config(Some(root), Some(ldcache), 0, 0);
    if cfg.uid == NoId && overflowUid.Failed? then (copied, Some((overflowUid.code, overflowUid.msg)))
    else
      var uid := if cfg.uid != NoId then cfg.uid else overflowUid.value;
      if cfg.gid == NoId && overflowGid.Failed? then (copied.(uid := uid), Some((overflowGid.code, overflowGid.msg)))
      else (copied.(uid := uid, gid := if cfg.gid != NoId then cfg.gid else overflowGid.value), None)
  }

  /** With nothing configured, the context gets "/", LDCACHE_PATH and the overflow ids. */
  lemma CopyConfigDefaults(ou: nat, og: nat)
    ensures CopyConfigSpec(DefaultConfig, Done(ou), Done(og)) == (Config(Some("/"), Some(LdcachePath), ou, og), None)
  {
  }

  /**
   * Copying is idempotent: a copied configuration whose ids are set is copied unchanged,
   * whatever the overflow files hold.
   */
  lemma CopyConfigIdempotent(cfg: Config, ou: Call<nat>, og: Call<nat>, ou2: Call<nat>, og2: Call<nat>)
    requires CopyConfigSpec(cfg, ou, og).1.None?
    requires CopyConfigSpec(cfg, ou, og).0.uid != NoId && CopyConfigSpec(cfg, ou, og).0.gid != NoId
    ensures CopyConfigSpec(CopyConfigSpec(cfg, ou, og).0, ou2, og2) == (CopyConfigSpec(cfg, ou, og).0, None)
  {
  }

  method CopyConfig(ctx: Context, cfg: Config, overflowUid: Call<nat>, overflowGid: Call<nat>) returns (rc: int)
    requires ctx.cfg == ZeroConfig
    modifies ctx, ctx.err
    ensures var (copied, w) := CopyConfigSpec(cfg, overflowUid, overflowGid);
      ctx.cfg == copied && (rc == 0 <==> w.None?) && (rc == 0 || rc == -1) &&
      (ctx.err.code, ctx.err.msg) == After(old((ctx.err.code, ctx.err.msg)), w)
    ensures ctx.held == old(ctx.held) + {RootCopy, LdcacheCopy}
    ensures ctx.initialized == old(ctx.initialized) && ctx.mntNs == old(ctx.mntNs)
  {
    var root := if cfg.root.Some? then cfg.root.value else "/";
    ctx.cfg := ctx.cfg.(root := Some(root));
    ctx.held := ctx.held + {RootCopy};
    var ldcache := if cfg.ldcache.Some? then cfg.ldcache.value else LdcachePath;
    ctx.cfg := ctx.cfg.(ldcache := Some(ldcache));
    ctx.held := ctx.held + {LdcacheCopy};
    if cfg.uid != NoId {
      ctx.cfg := ctx.cfg.(uid := cfg.uid);
    } else {
      match overflowUid
      case Failed(code, msg) =>
        Record(ctx.err, code, msg);
        return -1;
      case Done(uid) =>
        ctx.cfg := ctx.cfg.(uid := uid);
    }
    if cfg.gid != NoId {
      ctx.cfg := ctx.cfg.(gid := cfg.gid);
    } else {
      match overflowGid
      case Failed(code, msg) =>
        Record(ctx.err, code, msg);
        return -1;
      case Done(gid) =>
        ctx.cfg := ctx.cfg.(gid := gid);
    }
    return 0;
  }

  // ---- nvc_init / nvc_shutdown ----

  /** What the calls nvc_init makes outside this model answer. */
  datatype InitEnv = InitEnv(
    overflowUid: Call<nat>, overflowGid: Call<nat>, mntNs: Call<nat>,
    uidMap: Call<string>, gidMap: Call<string>, setgroups: Call<string>,
    fork: Option<Errno>, driverInit: Call<()>)

  /** The context after nvc_init on an uninitialized context, and the error written last. */
  datatype InitTrace = InitTrace(ok: bool, written: Option<(int, string)>, cfg: Config, mntNs: int)

  /**
   * nvc_init on an uninitialized context whose configuration and namespace descriptor are
   * `ctxCfg` and `ctxMntNs`: every failure writes an error, a success leaves the copied
   * configuration and the open descriptor, and explicitly empty strings are refused first.
   */
  function InitSpec(ctxCfg: Config, ctxMntNs: int, cfg: Config, opts: string, argMax: nat, env: InitEnv): (r: InitTrace)
    ensures !r.ok ==> r.written.Some?
    ensures r.ok ==>
      r.cfg == CopyConfigSpec(cfg, env.overflowUid, env.overflowGid).0 && r.cfg.root.Some? &&
      r.cfg.ldcache.Some? && env.mntNs.Done? && r.mntNs == env.mntNs.value && env.driverInit.Done?
    ensures Utils.StrEmpty(cfg.ldcache) || Utils.StrEmpty(cfg.root) ==>
      r == InitTrace(false, Some((-1, "invalid argument")), ctxCfg, ctxMntNs)
  {
    if Utils.StrEmpty(cfg.ldcache) || Utils.StrEmpty(cfg.root) then
      InitTrace(false, Some((-1, "invalid argument")), ctxCfg, ctxMntNs)
    else
      match Options.Parse(opts, Options.LibraryOpts, argMax)
      case Failure(msg) => InitTrace(false, Some((-1, msg)), ctxCfg, ctxMntNs)
      case Success(flags) => SetupSpec(cfg, flags, env)
  }

  /**
   * The steps of nvc_init after the options are parsed: copy the configuration, open the
   * mount namespace, load the kernel modules when asked to, start the driver.
   */
  function SetupSpec(cfg: Config, flags: Options.Flags, env: InitEnv): (r: InitTrace)
    ensures !r.ok ==> r.written.Some?
    ensures r.ok ==>
      r.cfg == CopyConfigSpec(cfg, env.overflowUid, env.overflowGid).0 && r.cfg.root.Some? &&
      r.cfg.ldcache.Some? && env.mntNs.Done? && r.mntNs == env.mntNs.value && env.driverInit.Done?
  {
    var (copied, copyError) := CopyConfigSpec(cfg, env.overflowUid, env.overflowGid);
    if copyError.Some? then InitTrace(false, copyError, copied, -1)
    else
      match env.mntNs
      case Failed(code, msg) => InitTrace(false, Some((code, msg)), copied, -1)
      case Done(fd) =>
        var kmods :=
          if Options.OptLoadKmods <= flags
          then KmodsSpec(WithinUserns(env.uidMap, env.gidMap, env.setgroups), env.fork)
          else (true, None);
        if !kmods.0 then InitTrace(false, kmods.1, copied, fd)
        else
          match env.driverInit
          case Failed(code, msg) => InitTrace(false, Some((code, msg)), copied, fd)
          case Done(_) => InitTrace(true, kmods.1, copied, fd)
  }

  /**
   * Inside a user namespace the kernel modules are not loaded: whether the fork would
   * fail makes no difference.
   */
  lemma KmodsSkippedInUserns(ctxCfg: Config, ctxMntNs: int, cfg: Config, opts: string, argMax: nat,
                             env: InitEnv, fork: Option<Errno>)
    requires WithinUserns(env.uidMap, env.gidMap, env.setgroups).verdict == Within
    ensures InitSpec(ctxCfg, ctxMntNs, cfg, opts, argMax, env) == InitSpec(ctxCfg, ctxMntNs, cfg, opts, argMax, env.(fork := fork))
  {
    var other := env.(fork := fork);
    var userns := WithinUserns(env.uidMap, env.gidMap, env.setgroups);
    assert WithinUserns(other.uidMap, other.gidMap, other.setgroups) == userns;
    assert KmodsSpec(userns, env.fork) == KmodsSpec(userns, fork) == (true, userns.written);
  }

  /** Without load-kmods, the user namespace files and the fork play no part. */
  lemma NoKmodsNoProbe(ctxCfg: Config, ctxMntNs: int, cfg: Config, opts: string, argMax: nat,
                       env: InitEnv, uidMap: Call<string>, gidMap: Call<string>, setgroups: Call<string>, fork: Option<Errno>)
    requires Options.Parse(opts, Options.LibraryOpts, argMax).Success?
    requires !(Options.OptLoadKmods <= Options.Parse(opts, Options.LibraryOpts, argMax).value)
    ensures InitSpec(ctxCfg, ctxMntNs, cfg, opts, argMax, env) ==
      InitSpec(ctxCfg, ctxMntNs, cfg, opts, argMax, env.(uidMap := uidMap, gidMap := gidMap, setgroups := setgroups, fork := fork))
  {
  }

  /**
   * nvc_init. A NULL context fails; an initialized one is left alone; otherwise the
   * context follows InitSpec, is marked initialized only when every step succeeded, and
   * owns its copies, descriptor and driver exactly then.
   */
  method Init(ctx: Context?, cfg: Option<Config>, opts: Option<string>, argMax: nat, env: InitEnv) returns (rc: int)
    requires ctx != null ==> ctx.Holds(AllHeld)
    modifies if ctx != null then {ctx, ctx.err} else {}
    ensures ctx == null ==> rc == -1
    ensures ctx != null ==> ctx.Holds(AllHeld) && (rc == 0 <==> ctx.initialized) && (rc == 0 || rc == -1)
    ensures ctx != null && old(ctx.initialized) ==> rc == 0 && unchanged(ctx, ctx.err)
    ensures ctx != null && !old(ctx.initialized) ==>
      var t := InitSpec(old(ctx.cfg), old(ctx.mntNs), cfg.UnwrapOr(DefaultConfig), opts.UnwrapOr(DefaultLibraryOpts), argMax, env);
      (rc == 0 <==> t.ok) && ctx.cfg == t.cfg && ctx.mntNs == t.mntNs &&
      (ctx.err.code, ctx.err.msg) == After(old((ctx.err.code, ctx.err.msg)), t.written)
    ensures ctx != null && rc != 0 ==> NvcError(ctx).Some?
  {
    if ctx == null {
      return -1;
    }
    if ctx.initialized {
      return 0;
    }
    var config := if cfg.Some? then cfg.value else DefaultConfig;
    rc := ValidateArgs(ctx, !Utils.StrEmpty(config.ldcache) && !Utils.StrEmpty(config.root));
    if rc < 0 {
      return -1;
    }
    var options := if opts.Some? then opts.value else DefaultLibraryOpts;
    var flags := Options.OptionsParse(options, Options.LibraryOpts, argMax);
    if flags.Failure? {
      var _ := ErrorGeneric.SetX(ctx.err, flags.error);
      return -1;
    }
    ctx.cfg := ZeroConfig;
    ctx.mntNs := -1;
    rc := Setup(ctx, config, flags.value, env);
  }

  /** The body of nvc_init from the copy of the configuration on, over a cleared context. */
  method Setup(ctx: Context, config: Config, flags: Options.Flags, env: InitEnv) returns (rc: int)
    requires !ctx.initialized && ctx.held == {} && ctx.cfg == ZeroConfig && ctx.mntNs == -1
    modifies ctx, ctx.err
    ensures var t := SetupSpec(config, flags, env);
      (rc == 0 <==> t.ok) && ctx.cfg == t.cfg && ctx.mntNs == t.mntNs &&
      (ctx.err.code, ctx.err.msg) == After(old((ctx.err.code, ctx.err.msg)), t.written)
    ensures ctx.Holds(AllHeld) && (rc == 0 <==> ctx.initialized) && (rc == 0 || rc == -1)
  {
    rc := CopyConfig(ctx, config, env.overflowUid, env.overflowGid);
    if rc < 0 {
      ctx.held := {};
      return -1;
    }
    match env.mntNs {
      case Failed(code, msg) =>
        Record(ctx.err, code, msg);
        ctx.held := {};
        return -1;
      case Done(fd) =>
        ctx.mntNs := fd;
        ctx.held := ctx.held + {MntNsFd};
    }
    if Options.OptLoadKmods <= flags {
      rc := LoadKernelModules(ctx.err, env.uidMap, env.gidMap, env.setgroups, env.fork);
      if rc < 0 {
        ctx.held := {};
        return -1;
      }
    }
    match env.driverInit {
      case Failed(code, msg) =>
        Record(ctx.err, code, msg);
        ctx.held := {};
        return -1;
      case Done(_) =>
        ctx.held := ctx.held + {DriverSession};
    }
    ctx.initialized := true;
    return 0;
  }

  /**
   * nvc_shutdown, for a context that owns `all` when initialized. A NULL context fails;
   * an uninitialized one is left alone; a failed driver shutdown leaves the context
   * initialized; otherwise everything is released and the configuration cleared.
   */
  method Shutdown(ctx: Context?, all: set<Resource>, driverStopped: bool) returns (rc: int)
    requires ctx != null ==> ctx.Holds(all)
    modifies if ctx != null then {ctx} else {}
    ensures ctx == null ==> rc == -1
    ensures ctx != null ==> ctx.Holds(all)
    ensures ctx != null && !old(ctx.initialized) ==> rc == 0 && unchanged(ctx)
    ensures ctx != null && old(ctx.initialized) && !driverStopped ==> rc == -1 && unchanged(ctx)
    ensures ctx != null && old(ctx.initialized) && driverStopped ==>
      rc == 0 && !ctx.initialized && ctx.held == {} && ctx.cfg == ZeroConfig && ctx.mntNs == -1
  {
    if ctx == null {
      return -1;
    }
    if !ctx.initialized {
      return 0;
    }
    if !driverStopped {
      return -1;
    }
    ctx.held := {};
    ctx.cfg := ZeroConfig;
    ctx.mntNs := -1;
    ctx.initialized := false;
    return 0;
  }
}
