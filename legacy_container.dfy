/**
 * The older container setup (nvc_container.c): its own cgroup line parsers, which read
 * lines with their newline and keep no mount-root prefix, a find_cgroup_path that reads
 * the mount table of the calling process in supervised mode, and copy_config choosing
 * default directories by looking into the container's root filesystem.
 *
 * This variant's option table is not part of this model: the table, the default option
 * string and the mode bits are parameters. Directory names are those of an x86_64 build.
 */
module LegacyContainer {
  import opened Wrappers
  import Text
  import Utils
  import Options
  import ErrorGeneric
  import opened NvcInternal
  import opened Nvc
  import opened ProcRead
  import Container

  // ---- the cgroup line parsers ----

  /**
   * cgroup_mount of this file: the mount point of a line whose root is exactly "/", whose
   * filesystem type is "cgroup" and whose super options mention `subsys`.
   */
  function LegacyMountSpec(line: string, subsys: string): (r: Option<string>)
    ensures r.Some? ==> Container.MountFieldsOf(line).root == Some("/") && Container.MountFieldsOf(line).fstype == Some("cgroup")
  {
    var f := Container.MountFieldsOf(line);
    if f.root.None? || f.mount.None? || f.fstype.None? || f.superOpts.None? then None
    else if f.root.value != "/" || f.fstype.value != "cgroup" then None
    else if !Text.Contains(f.superOpts.value, subsys) then None
    else Some(f.mount.value)
  }

  /** This cgroup_mount: the fields read as in the newer one, then its own checks. */
  method LegacyMount(line: string, subsys: string) returns (r: Option<string>)
    ensures r == LegacyMountSpec(line, subsys)
  {
    var f := Container.ReadMountFields(line);
    if f.root.None? || f.mount.None? || f.fstype.None? || f.superOpts.None? {
      return None;
    }
    if f.root.value != "/" || f.fstype.value != "cgroup" || !Text.Contains(f.superOpts.value, subsys) {
      return None;
    }
    return Some(f.mount.value);
  }

  /**
   * cgroup_root of this file: the third ':' field cut at its newline, when the controllers
   * mention `subsys` and the path does not start with "/..".
   */
  function LegacyRootSpec(line: string, subsys: string): (r: Option<string>)
    ensures r.Some? ==> '\n' !in r.value
  {
    var substr := Text.Token(Some(line), ':', 1);
    var root := Text.Token(Some(line), ':', 2);
    if root.None? || substr.None? then None
    else if Utils.Strpcmp(root.value, "/..") == 0 then None
    else if !Text.Contains(substr.value, subsys) then None
    else Some(ErrorGeneric.CutAtNewline(root.value))
  }

  /** The strsep calls of this cgroup_root. */
  method LegacyRoot(line: string, subsys: string) returns (r: Option<string>)
    ensures r == LegacyRootSpec(line, subsys)
  {
    var l := Some(line);
    var ptr := l;
    var substr: Option<string> := None;
    for i := 0 to 2
      invariant ptr == Text.Skip(l, ':', i)
      invariant i > 0 ==> substr == Text.Token(l, ':', i - 1)
    {
      Text.SkipStep(l, ':', i);
      substr, ptr := Text.Strsep(ptr, ':');
    }
    var root;
    root, ptr := Text.Strsep(ptr, ':');
    if root.None? || substr.None? {
      return None;
    }
    if Utils.Strpcmp(root.value, "/..") == 0 || !Text.Contains(substr.value, subsys) {
      return None;
    }
    return Some(ErrorGeneric.CutAtNewline(root.value));
  }

  /**
   * On a line "id:controllers:path" with its newline, this cgroup_root yields the path
   * without the newline, whatever the controllers' and path's emptiness.
   */
  lemma LegacyCgroupLineParsed(id: string, controllers: string, path: string, subsys: string)
    requires ':' !in id && ':' !in controllers && ':' !in path && '\n' !in path
    ensures LegacyRootSpec(id + ":" + (controllers + ":" + (path + "\n")), subsys) ==
      if Text.Contains(controllers, subsys) && !("/.." <= path) then Some(path) else None
  {
    var tail := path + "\n";
    Text.SkipField(id, ':', controllers + ":" + tail, 0);
    Text.FieldStep(controllers, ':', tail);
    Text.SkipField(id, ':', controllers + ":" + tail, 1);
    Text.SkipField(controllers, ':', tail, 0);
    Text.LastField(tail, ':');
    Utils.StrpcmpPrefix(tail, "/..");
    assert "/.." <= tail <==> "/.." <= path;
    Container.CutTerminated(path);
  }

  /** A mount rooted anywhere but "/" is never accepted, unlike in the newer parser. */
  lemma NestedRootRejected(line: string, subsys: string)
    requires Container.MountFieldsOf(line).root.Some? && Container.MountFieldsOf(line).root != Some("/")
    ensures LegacyMountSpec(line, subsys).None?
  {
  }

  // ---- parse_proc_file ----

  /** parse_fn of this file: a parser called with a line and the subsystem. */
  type LegacyParser = (string, string) -> Option<string>

  const MountParse: LegacyParser := (line, subsys) => LegacyMountSpec(line, subsys)
  const RootParse: LegacyParser := (line, subsys) => LegacyRootSpec(line, subsys)

  /** The parser over the lines as getline returns them, newline included. */
  function Acceptor(parse: LegacyParser, subsys: string): string -> Option<string>
  {
    raw => parse(raw, subsys)
  }

  /** What this parse_proc_file returns and the error it writes last. */
  datatype LegacyResult = LegacyResult(value: Option<string>, written: Option<(int, string)>)

  /**
   * This parse_proc_file: the first line the parser accepts wins, with the same reporting
   * of open and read failures, and of an accepted last line that met the end of the stream.
   */
  function LegacyParseProcSpec(procf: string, file: ProcFile, parse: LegacyParser, subsys: string): (r: LegacyResult)
    ensures r.value.None? <==> r.written.Some?
  {
    match file
    case Unopenable(e) =>
      LegacyResult(None, Some((e.code, ErrorGeneric.Compose("open failed: " + procf, Some(e.text)))))
    case Readable(content, failure) =>
      var lines := Getlines(content);
      match FirstAccepted(lines, Acceptor(parse, subsys))
      case Some((k, found)) =>
        if k == |lines| - 1 && EndsOpen(content) then
          match failure
          case Some(e) => LegacyResult(None, Some((e.code, ErrorGeneric.Compose("read error: " + procf, Some(e.text)))))
          case None => LegacyResult(None, Some((-1, Container.NotFound(subsys))))
        else LegacyResult(Some(found), None)
      case None =>
        match failure
        case Some(e) => LegacyResult(None, Some((e.code, ErrorGeneric.Compose("read error: " + procf, Some(e.text)))))
        case None => LegacyResult(None, Some((-1, Container.NotFound(subsys))))
  }

  /** This parse_proc_file: the file opened, its lines scanned, and the outcome reported. */
  method LegacyParseProcFile(err: ErrorGeneric.Error, procf: string, file: ProcFile, parse: LegacyParser, subsys: string)
    returns (found: Option<string>)
    modifies err
    ensures var s := LegacyParseProcSpec(procf, file, parse, subsys);
      found == s.value && (err.code, err.msg) == Nvc.After(old((err.code, err.msg)), s.written)
  {
    if file.Unopenable? {
      var _ := ErrorGeneric.Set(err, file.e.code, file.e.text, "open failed: " + procf);
      return None;
    }
    var eof, ferror;
    found, eof, ferror := LegacyScanLines(file.content, file.failure, parse, subsys);
    if ferror {
      var _ := ErrorGeneric.Set(err, file.failure.value.code, file.failure.value.text, "read error: " + procf);
      return None;
    }
    if found.None? || eof {
      var _ := ErrorGeneric.SetX(err, Container.NotFound(subsys));
      return None;
    }
  }

  /** The getline loop, handing each line to the parser whole. */
  method LegacyScanLines(content: string, failure: Option<Nvc.Errno>, parse: LegacyParser, subsys: string)
    returns (found: Option<string>, eof: bool, ferror: bool)
    ensures var lines := Getlines(content);
      var first := FirstAccepted(lines, Acceptor(parse, subsys));
      (found == if first.Some? then Some(first.value.1) else None) &&
      (ferror <==> failure.Some? && (first.None? || (first.value.0 == |lines| - 1 && EndsOpen(content)))) &&
      (eof <==> failure.None? && (first.None? || (first.value.0 == |lines| - 1 && EndsOpen(content))))
  {
    var lines := Getlines(content);
    var i := 0;
    eof, ferror := false, false;
    found := None;
    while true
      invariant i <= |lines| && found.None?
      invariant forall j :: 0 <= j < i ==> parse(lines[j], subsys).None?
      invariant eof <==> i == |lines| && i > 0 && EndsOpen(content) && failure.None?
      invariant ferror <==> i == |lines| && i > 0 && EndsOpen(content) && failure.Some?
      decreases |lines| - i
    {
      if i == |lines| {
        if failure.Some? {
          ferror := true;
        } else {
          eof := true;
        }
        LegacyAcceptedFirst(lines, parse, subsys, i);
        return;
      }
      var raw := lines[i];
      if i == |lines| - 1 && EndsOpen(content) {
        if failure.None? {
          eof := true;
        } else {
          ferror := true;
        }
      }
      i := i + 1;
      found := parse(raw, subsys);
      if found.Some? {
        LegacyAcceptedFirst(lines, parse, subsys, i - 1);
        return;
      }
    }
  }

  /** FirstAccepted over the parser: the first line every earlier line is rejected before. */
  lemma LegacyAcceptedFirst(lines: seq<string>, parse: LegacyParser, subsys: string, k: nat)
    requires k <= |lines| && forall j :: 0 <= j < k ==> parse(lines[j], subsys).None?
    requires k < |lines| ==> parse(lines[k], subsys).Some?
    ensures FirstAccepted(lines, Acceptor(parse, subsys)) ==
      if k == |lines| then None else Some((k, parse(lines[k], subsys).value))
  {
    FirstAcceptedIs(lines, Acceptor(parse, subsys), k);
  }

  /** A file whose first line the parser accepts yields that line's result, newline included. */
  lemma LegacyFirstLineWins(procf: string, line: string, rest: string, failure: Option<Nvc.Errno>,
                            parse: LegacyParser, subsys: string)
    requires '\n' !in line && parse(line + "\n", subsys).Some?
    ensures LegacyParseProcSpec(procf, Readable(line + "\n" + rest, failure), parse, subsys) ==
      LegacyResult(parse(line + "\n", subsys), None)
  {
    GetlinesCons(line, rest);
    LegacyAcceptedFirst(Getlines(line + "\n" + rest), parse, subsys, 0);
  }

  /**
   * A file that is one accepted line without a newline, whose reading then fails, reports
   * the read error rather than the line.
   */
  lemma LegacyUnterminatedMatchReadError(procf: string, line: string, e: Nvc.Errno, parse: LegacyParser, subsys: string)
    requires line != [] && '\n' !in line && parse(line, subsys).Some?
    ensures LegacyParseProcSpec(procf, Readable(line, Some(e)), parse, subsys) ==
      LegacyResult(None, Some((e.code, ErrorGeneric.Compose("read error: " + procf, Some(e.text)))))
  {
    GetlinesOpen(line);
    LegacyAcceptedFirst([line], parse, subsys, 0);
  }

  // ---- find_cgroup_path ----

  /**
   * This find_cgroup_path: the mount table is that of the container (standalone) or of the
   * calling process `self` (supervised), read under the same prefix; the container's
   * cgroup is appended to the mount point as it is, with no root stripped.
   */
  function LegacyCgroupPathSpec(standalone: bool, pid: nat, rootfs: string, self: nat,
                                fs: string -> ProcFile, subsys: string): (r: (Option<string>, Option<(int, string)>))
    ensures r.0.None? <==> r.1.Some?
  {
    var prefix := Container.ProcPrefix(standalone, rootfs);
    var mounts := Container.MountsPath(prefix, if standalone then pid else self);
    if |mounts| >= Utils.PathMax then (None, Some((-1, Container.FormatFailed)))
    else
      var m := LegacyParseProcSpec(mounts, fs(mounts), MountParse, subsys);
      if m.value.None? then (None, m.written)
      else
        var cgroups := Container.CgroupFilePath(prefix, pid);
        if |cgroups| >= Utils.PathMax then (None, Some((-1, Container.FormatFailed)))
        else
          var c := LegacyParseProcSpec(cgroups, fs(cgroups), RootParse, subsys);
          if c.value.None? then (None, c.written)
          else (Some(prefix + m.value.value + c.value.value), None)
  }

  /** This find_cgroup_path: two proc files parsed in turn, and the pieces joined. */
  method LegacyFindCgroupPath(err: ErrorGeneric.Error, standalone: bool, pid: nat, rootfs: string, self: nat,
                              fs: string -> ProcFile, subsys: string) returns (cgroup: Option<string>)
    modifies err
    ensures var s := LegacyCgroupPathSpec(standalone, pid, rootfs, self, fs, subsys);
      cgroup == s.0 && (err.code, err.msg) == Nvc.After(old((err.code, err.msg)), s.1)
  {
    var prefix := Container.ProcPrefix(standalone, rootfs);
    var path := Container.MountsPath(prefix, if standalone then pid else self);
    if |path| >= Utils.PathMax {
      var _ := ErrorGeneric.SetX(err, Container.FormatFailed);
      return None;
    }
    var mount := LegacyParseProcFile(err, path, fs(path), MountParse, subsys);
    if mount.None? {
      return None;
    }
    path := Container.CgroupFilePath(prefix, pid);
    if |path| >= Utils.PathMax {
      var _ := ErrorGeneric.SetX(err, Container.FormatFailed);
      return None;
    }
    var root := LegacyParseProcFile(err, path, fs(path), RootParse, subsys);
    if root.None? {
      return None;
    }
    return Some(prefix + mount.value + root.value);
  }

  /** The cgroup path is the prefix, the mount point and the container's cgroup, in that order. */
  lemma LegacyCgroupPathJoined(standalone: bool, pid: nat, rootfs: string, self: nat, fs: string -> ProcFile,
                               subsys: string, mount: string, root: string)
    requires |Container.MountsPath(Container.ProcPrefix(standalone, rootfs), if standalone then pid else self)| < Utils.PathMax
    requires |Container.CgroupFilePath(Container.ProcPrefix(standalone, rootfs), pid)| < Utils.PathMax
    requires var mounts := Container.MountsPath(Container.ProcPrefix(standalone, rootfs), if standalone then pid else self);
      LegacyParseProcSpec(mounts, fs(mounts), MountParse, subsys).value == Some(mount)
    requires var cgroups := Container.CgroupFilePath(Container.ProcPrefix(standalone, rootfs), pid);
      LegacyParseProcSpec(cgroups, fs(cgroups), RootParse, subsys).value == Some(root)
    ensures LegacyCgroupPathSpec(standalone, pid, rootfs, self, fs, subsys) ==
      (Some(Container.ProcPrefix(standalone, rootfs) + mount + root), None)
  {
  }

  // ---- copy_config ----

  const UsrBinDir: string := "/usr/bin"
  const UsrLibDir: string := "/usr/lib64"
  const UsrLib32Dir: string := "/usr/lib32"
  const UsrLib32AltDir: string := "/usr/lib"
  const UsrLibMultiarchDir: string := "/usr/lib/x86_64-linux-gnu"
  const UsrLib32MultiarchDir: string := "/usr/lib/i386-linux-gnu"
  const LdconfigPath: string := "/sbin/ldconfig"
  const LdconfigAltPath: string := "/sbin/ldconfig.real"
  const DebianVersion: string := "/etc/debian_version"

  /** `struct nvc_container_config` of this file: NULL strings are None. */
  datatype LegacyConfig = LegacyConfig(
    pid: int, rootfs: Option<string>, binsDir: Option<string>, libsDir: Option<string>,
    libs32Dir: Option<string>, ldconfig: Option<string>)

  /**
   * The file system of the container as copy_config sees it: path_resolve of a path inside
   * the root filesystem, file_exists of a resolved path, and xrealpath of the root itself.
   */
  datatype RootView = RootView(resolve: string -> Nvc.Call<string>, isFile: string -> Nvc.Call<bool>, realpath: Nvc.Call<string>)

  /** Whether a path inside the root filesystem exists, failing when either step fails. */
  function Present(view: RootView, path: string): Nvc.Call<bool>
  {
    match view.resolve(path)
    case Failed(code, msg) => Failed(code, msg)
    case Done(resolved) => view.isFile(resolved)
  }

  /**
   * The 32-bit library directory on a system without multiarch: USR_LIB32_DIR, unless it
   * is missing while USR_LIB32_ALT_DIR exists and resolves elsewhere than `libsDir`.
   */
  function Lib32Choice(view: RootView, libsDir: string): (r: Nvc.Call<string>)
    ensures r.Done? ==> r.value == UsrLib32Dir || r.value == UsrLib32AltDir
  {
    match Present(view, UsrLib32Dir)
    case Failed(code, msg) => Failed(code, msg)
    case Done(true) => Done(UsrLib32Dir)
    case Done(false) =>
      match view.resolve(libsDir)
      case Failed(code, msg) => Failed(code, msg)
      case Done(libsResolved) =>
        match view.resolve(UsrLib32AltDir)
        case Failed(code, msg) => Failed(code, msg)
        case Done(altResolved) =>
          match view.isFile(altResolved)
          case Failed(code, msg) => Failed(code, msg)
          case Done(alt) => Done(if alt && altResolved != libsResolved then UsrLib32AltDir else UsrLib32Dir)
  }

  /** The library directories when one of them is not given. */
  function LibDirs(view: RootView, libsDir: Option<string>, libs32Dir: Option<string>): (r: Nvc.Call<(string, string)>)
    ensures r.Done? && libsDir.Some? ==> r.value.0 == libsDir.value
    ensures r.Done? && libs32Dir.Some? ==> r.value.1 == libs32Dir.value
  {
    match Present(view, DebianVersion)
    case Failed(code, msg) => Failed(code, msg)
    case Done(true) => Done((libsDir.UnwrapOr(UsrLibMultiarchDir), libs32Dir.UnwrapOr(UsrLib32MultiarchDir)))
    case Done(false) =>
      var libs := libsDir.UnwrapOr(UsrLibDir);
      if libs32Dir.Some? then Done((libs, libs32Dir.value))
      else
        match Lib32Choice(view, libs)
        case Failed(code, msg) => Failed(code, msg)
        case Done(libs32) => Done((libs, libs32))
  }

  /** The ldconfig to run when none is given: the real binary when the rootfs has it. */
  function LdconfigChoice(view: RootView): (r: Nvc.Call<string>)
    ensures r.Done? ==> r.value == LdconfigPath || r.value == LdconfigAltPath
  {
    match Present(view, LdconfigAltPath)
    case Failed(code, msg) => Failed(code, msg)
    case Done(alt) => Done(if alt then LdconfigAltPath else LdconfigPath)
  }

  /** The configuration copy_config leaves in the container. */
  datatype Dirs = Dirs(rootfs: string, binsDir: string, libsDir: string, libs32Dir: string, ldconfig: string)

  /** copy_config: defaults chosen, then the root filesystem resolved. */
  function CopyConfigSpec(cfg: LegacyConfig, view: RootView): (r: Nvc.Call<Dirs>)
    ensures r.Done? ==> view.realpath.Done? && r.value.rootfs == view.realpath.value
    ensures r.Done? ==> r.value.binsDir == cfg.binsDir.UnwrapOr(UsrBinDir)
    ensures r.Done? && cfg.libsDir.Some? ==> r.value.libsDir == cfg.libsDir.value
    ensures r.Done? && cfg.libs32Dir.Some? ==> r.value.libs32Dir == cfg.libs32Dir.value
    ensures r.Done? && cfg.ldconfig.Some? ==> r.value.ldconfig == cfg.ldconfig.value
  {
    var libs: Call<(string, string)> := if cfg.libsDir.Some? && cfg.libs32Dir.Some? then Done((cfg.libsDir.value, cfg.libs32Dir.value))
                else LibDirs(view, cfg.libsDir, cfg.libs32Dir);
    match libs
    case Failed(code, msg) => Failed(code, msg)
    case Done((libsDir, libs32Dir)) =>
      var ldconfig: Call<string> := if cfg.ldconfig.Some? then Done(cfg.ldconfig.value) else LdconfigChoice(view);
      match ldconfig
      case Failed(code, msg) => Failed(code, msg)
      case Done(ld) =>
        match view.realpath
        case Failed(code, msg) => Failed(code, msg)
        case Done(rootfs) => Done(Dirs(rootfs, cfg.binsDir.UnwrapOr(UsrBinDir), libsDir, libs32Dir, ld))
  }

  /** A Debian root filesystem gets the multiarch directories for whatever is not given. */
  lemma MultiarchDefaults(cfg: LegacyConfig, view: RootView)
    requires cfg.libsDir.None? && cfg.libs32Dir.None? && Present(view, DebianVersion) == Done(true)
    requires CopyConfigSpec(cfg, view).Done?
    ensures CopyConfigSpec(cfg, view).value.libsDir == UsrLibMultiarchDir
    ensures CopyConfigSpec(cfg, view).value.libs32Dir == UsrLib32MultiarchDir
  {
  }

  /**
   * Without multiarch, the 32-bit directory falls back to USR_LIB32_ALT_DIR exactly when
   * USR_LIB32_DIR is missing and the alternative exists apart from the 64-bit directory.
   */
  lemma Lib32Fallback(cfg: LegacyConfig, view: RootView)
    requires cfg.libsDir.None? && cfg.libs32Dir.None? && Present(view, DebianVersion) == Done(false)
    requires CopyConfigSpec(cfg, view).Done?
    ensures CopyConfigSpec(cfg, view).value.libsDir == UsrLibDir
    ensures CopyConfigSpec(cfg, view).value.libs32Dir == UsrLib32AltDir <==>
      Present(view, UsrLib32Dir) == Done(false) &&
      view.resolve(UsrLib32AltDir).Done? && view.isFile(view.resolve(UsrLib32AltDir).value) == Done(true) &&
      view.resolve(UsrLibDir).Done? && view.resolve(UsrLib32AltDir).value != view.resolve(UsrLibDir).value
  {
  }

  /** An unset ldconfig is the real binary exactly when the root filesystem has it. */
  lemma LdconfigDefault(cfg: LegacyConfig, view: RootView)
    requires cfg.ldconfig.None? && CopyConfigSpec(cfg, view).Done?
    ensures CopyConfigSpec(cfg, view).value.ldconfig == LdconfigAltPath <==> Present(view, LdconfigAltPath) == Done(true)
  {
  }

  /** copy_config, step by step, writing the error of the step that fails. */
  method CopyConfig(err: ErrorGeneric.Error, cfg: LegacyConfig, view: RootView) returns (dirs: Option<Dirs>)
    modifies err
    ensures var s := CopyConfigSpec(cfg, view);
      (dirs.Some? <==> s.Done?) && (s.Done? ==> dirs.value == s.value && unchanged(err)) &&
      (s.Failed? ==> err.code == s.code && err.msg == Some(s.msg))
  {
    var binsDir := if cfg.binsDir.Some? then cfg.binsDir.value else UsrBinDir;
    var libsDir, libs32Dir := cfg.libsDir, cfg.libs32Dir;
    if libsDir.None? || libs32Dir.None? {
      var libs := LibDirs(view, libsDir, libs32Dir);
      if libs.Failed? {
        Nvc.Record(err, libs.code, libs.msg);
        return None;
      }
      libsDir, libs32Dir := Some(libs.value.0), Some(libs.value.1);
    }
    var ldconfig: Call<string> := if cfg.ldconfig.Some? then Done(cfg.ldconfig.value) else LdconfigChoice(view);
    if ldconfig.Failed? {
      Nvc.Record(err, ldconfig.code, ldconfig.msg);
      return None;
    }
    if view.realpath.Failed? {
      Nvc.Record(err, view.realpath.code, view.realpath.msg);
      return None;
    }
    return Some(Dirs(view.realpath.value, binsDir, libsDir.value, libs32Dir.value, ldconfig.value));
  }

  // ---- nvc_container_new ----

  /** The option table, default options and mode bits this variant parses against. */
  datatype ContainerOptions = ContainerOptions(
    table: seq<Options.OptionEntry>, defaults: string, supervised: Options.Flags, standalone: Options.Flags,
    noCgroups: Options.Flags)

  /** Exactly one of the two mode bits is set. */
  predicate ModeValid(setup: ContainerOptions, flags: Options.Flags)
  {
    (flags * setup.supervised != {}) != (flags * setup.standalone != {})
  }

  /** What this nvc_container_new fills in that the model follows. */
  datatype LegacyInfo = LegacyInfo(flags: Options.Flags, pid: nat, dirs: Dirs, mntNs: string, devCg: Option<string>)

  /**
   * This nvc_container_new on an initialized context: a configuration with a positive pid
   * and some rootfs (relative or empty ones are let through), parsed options naming exactly
   * one mode, copy_config, then `owner` for lookup_owner, and the two paths under the
   * resolved root filesystem; `self` is the calling process.
   */
  function LegacyNewSpec(cfg: Option<LegacyConfig>, opts: Option<string>, argMax: nat, setup: ContainerOptions,
                         view: RootView, owner: Nvc.Call<()>, self: nat, fs: string -> ProcFile)
    : (r: (Option<LegacyInfo>, Option<(int, string)>))
    ensures r.0.None? <==> r.1.Some?
    ensures r.0.Some? ==>
      cfg.Some? && cfg.value.pid > 0 && cfg.value.rootfs.Some? && ModeValid(setup, r.0.value.flags) &&
      r.0.value.pid == cfg.value.pid && CopyConfigSpec(cfg.value, view) == Done(r.0.value.dirs)
  {
    if !(cfg.Some? && cfg.value.pid > 0 && cfg.value.rootfs.Some?) then (None, Some((-1, "invalid argument")))
    else
      match Options.Parse(opts.UnwrapOr(setup.defaults), setup.table, argMax)
      case Failure(msg) => (None, Some((-1, msg)))
      case Success(flags) =>
        if !ModeValid(setup, flags) then (None, Some((-1, "invalid mode of operation")))
        else
          match CopyConfigSpec(cfg.value, view)
          case Failed(code, msg) => (None, Some((code, msg)))
          case Done(dirs) =>
            match owner
            case Failed(code, msg) => (None, Some((code, msg)))
            case Done(_) => LegacyLocated(cfg.value.pid, dirs, flags, setup, self, fs)
  }

  /** The namespace and cgroup lookups that end this nvc_container_new. */
  function LegacyLocated(pid: nat, dirs: Dirs, flags: Options.Flags, setup: ContainerOptions, self: nat,
                         fs: string -> ProcFile): (r: (Option<LegacyInfo>, Option<(int, string)>))
    ensures r.0.None? <==> r.1.Some?
    ensures r.0.Some? ==> r.0.value.flags == flags && r.0.value.pid == pid && r.0.value.dirs == dirs
    ensures r.0.Some? ==> (r.0.value.devCg.None? <==> flags * setup.noCgroups != {})
  {
    var standalone := flags * setup.standalone != {};
    var ns := Container.NamespacePath(Container.ProcPrefix(standalone, dirs.rootfs), pid, "mnt");
    if flags * setup.noCgroups != {} then (Some(LegacyInfo(flags, pid, dirs, ns, None)), None)
    else
      var (cg, w) := LegacyCgroupPathSpec(standalone, pid, dirs.rootfs, self, fs, "devices");
      if cg.None? then (None, w) else (Some(LegacyInfo(flags, pid, dirs, ns, cg)), None)
  }

  /** This nvc_container_new, following LegacyNewSpec on an initialized context. */
  method LegacyContainerNew(ctx: Context?, cfg: Option<LegacyConfig>, opts: Option<string>, argMax: nat,
                            setup: ContainerOptions, view: RootView, owner: Nvc.Call<()>, self: nat,
                            fs: string -> ProcFile) returns (cnt: Option<LegacyInfo>)
    modifies if ctx != null then {ctx.err} else {}
    ensures ctx == null ==> cnt.None?
    ensures ctx != null && !ctx.initialized ==>
      cnt.None? && ctx.err.code == -1 && ctx.err.msg == Some("context uninitialized")
    ensures ctx != null && ctx.initialized ==>
      var s := LegacyNewSpec(cfg, opts, argMax, setup, view, owner, self, fs);
      cnt == s.0 && (ctx.err.code, ctx.err.msg) == Nvc.After(old((ctx.err.code, ctx.err.msg)), s.1)
  {
    var rc := ValidateContext(ctx);
    if rc < 0 {
      return None;
    }
    rc := ValidateArgs(ctx, cfg.Some? && cfg.value.pid > 0 && cfg.value.rootfs.Some?);
    if rc < 0 {
      return None;
    }
    var options := if opts.Some? then opts.value else setup.defaults;
    var flags := Options.OptionsParse(options, setup.table, argMax);
    if flags.Failure? {
      var _ := ErrorGeneric.SetX(ctx.err, flags.error);
      return None;
    }
    if !ModeValid(setup, flags.value) {
      var _ := ErrorGeneric.SetX(ctx.err, "invalid mode of operation");
      return None;
    }
    var dirs := CopyConfig(ctx.err, cfg.value, view);
    if dirs.None? {
      return None;
    }
    if owner.Failed? {
      Nvc.Record(ctx.err, owner.code, owner.msg);
      return None;
    }
    var pid: nat := cfg.value.pid;
    var standalone := flags.value * setup.standalone != {};
    var ns := Container.NamespacePath(Container.ProcPrefix(standalone, dirs.value.rootfs), pid, "mnt");
    var devCg: Option<string> := None;
    if flags.value * setup.noCgroups == {} {
      devCg := LegacyFindCgroupPath(ctx.err, standalone, pid, dirs.value.rootfs, self, fs, "devices");
      if devCg.None? {
        return None;
      }
    }
    return Some(LegacyInfo(flags.value, pid, dirs.value, ns, devCg));
  }

  /** Options naming both modes, or neither, are refused before anything is looked up. */
  lemma LegacyRejectsAmbiguousMode(cfg: Option<LegacyConfig>, opts: Option<string>, argMax: nat, setup: ContainerOptions,
                                   view: RootView, owner: Nvc.Call<()>, self: nat, fs: string -> ProcFile)
    requires cfg.Some? && cfg.value.pid > 0 && cfg.value.rootfs.Some?
    requires Options.Parse(opts.UnwrapOr(setup.defaults), setup.table, argMax).Success?
    requires !ModeValid(setup, Options.Parse(opts.UnwrapOr(setup.defaults), setup.table, argMax).value)
    ensures LegacyNewSpec(cfg, opts, argMax, setup, view, owner, self, fs) == (None, Some((-1, "invalid mode of operation")))
  {
  }
}
