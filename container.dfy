/**
 * Finding a container's devices cgroup and checking its arguments (src/nvc_container.c).
 * cgroup_mount reads a line of /proc/<pid>/mountinfo, cgroup_root a line of
 * /proc/<pid>/cgroup; parse_proc_file runs one of them over a file's lines; and
 * find_cgroup_path joins the mount point found in the first file with the root found in
 * the second.
 *
 * A `char *` that may be NULL is an Option<string>; the prefix buffer cgroup_mount fills
 * and cgroup_root reads is passed and returned as a value.
 */
module Container {
  import opened Wrappers
  import Text
  import Utils
  import Options
  import ErrorGeneric
  import opened NvcInternal
  import Nvc
  import opened ProcRead

  /** str_has_prefix(root, "/.."): a root that climbs out of the hierarchy. */
  predicate Escapes(root: string)
  {
    "/.." <= root
  }

  /** The fields cgroup_mount reads from a line; NULL where the line runs out. */
  datatype MountFields = MountFields(root: Option<string>, mount: Option<string>, fstype: Option<string>, superOpts: Option<string>)

  /**
   * The 4th and 5th space-separated fields, then, from the first '-' after them, the 2nd
   * and 4th.
   */
  function MountFieldsOf(line: string): MountFields
  {
    var l := Some(line);
    var dash := Text.Strchr(Text.Skip(l, ' ', 5), '-');
    MountFields(Text.Token(l, ' ', 3), Text.Token(l, ' ', 4), Text.Token(dash, ' ', 1), Text.Token(dash, ' ', 3))
  }

  /**
   * The checks of cgroup_mount: every field present and non-empty, the filesystem type
   * "cgroup", super options mentioning `subsys`, and a root of bounded length not starting
   * with "/..". The result is the mount point and the root.
   */
  function MountAccepts(f: MountFields, subsys: string): (r: Option<(string, string)>)
    ensures r.Some? ==> r.value.0 != "" && r.value.1 != "" && |r.value.1| < Utils.PathMax && !Escapes(r.value.1)
  {
    if f.root.None? || f.mount.None? || f.fstype.None? || f.superOpts.None? then None
    else if f.root.value == "" || f.mount.value == "" || f.fstype.value == "" || f.superOpts.value == "" then None
    else if f.fstype.value != "cgroup" then None
    else if !Text.Contains(f.superOpts.value, subsys) then None
    else if |f.root.value| >= Utils.PathMax || Escapes(f.root.value) then None
    else Some((f.mount.value, f.root.value))
  }

  /** cgroup_mount on one mountinfo line: the mount point and root of a matching cgroup mount. */
  function CgroupMountSpec(line: string, subsys: string): (r: Option<(string, string)>)
    ensures r.Some? ==> r.value.0 != "" && r.value.1 != "" && |r.value.1| < Utils.PathMax && !Escapes(r.value.1)
  {
    MountAccepts(MountFieldsOf(line), subsys)
  }

  /**
   * A line that runs out before its sixth field is rejected. (The C code hands NULL to
   * strchr on such a line.)
   */
  lemma ShortLineRejected(line: string, subsys: string)
    requires Text.Skip(Some(line), ' ', 5).None?
    ensures CgroupMountSpec(line, subsys).None?
  {
    assert MountFieldsOf(line).fstype.None?;
  }

  /** The strsep and strchr calls of cgroup_mount, proved to pick the fields MountFieldsOf names. */
  method ReadMountFields(line: string) returns (f: MountFields)
    ensures f == MountFieldsOf(line)
  {
    var l := Some(line);
    var ptr := l;
    var root: Option<string> := None;
    for i := 0 to 4
      invariant ptr == Text.Skip(l, ' ', i)
      invariant i > 0 ==> root == Text.Token(l, ' ', i - 1)
    {
      Text.SkipStep(l, ' ', i);
      root, ptr := Text.Strsep(ptr, ' ');
    }
    var mount;
    mount, ptr := Text.Strsep(ptr, ' ');
    Text.SkipStep(l, ' ', 4);
    ptr := Text.Strchr(ptr, '-');
    var dash := ptr;
    var fstype: Option<string> := None;
    for i := 0 to 2
      invariant ptr == Text.Skip(dash, ' ', i)
      invariant i > 0 ==> fstype == Text.Token(dash, ' ', i - 1)
    {
      Text.SkipStep(dash, ' ', i);
      fstype, ptr := Text.Strsep(ptr, ' ');
    }
    var substr: Option<string> := None;
    for i := 2 to 4
      invariant ptr == Text.Skip(dash, ' ', i)
      invariant i > 2 ==> substr == Text.Token(dash, ' ', i - 1)
    {
      Text.SkipStep(dash, ' ', i);
      substr, ptr := Text.Strsep(ptr, ' ');
    }
    return MountFields(root, mount, fstype, substr);
  }

  /** cgroup_mount: the fields read, then checked. */
  method CgroupMount(line: string, subsys: string) returns (r: Option<(string, string)>)
    ensures r == CgroupMountSpec(line, subsys)
  {
    var f := ReadMountFields(line);
    var root, mount, fstype, substr := f.root, f.mount, f.fstype, f.superOpts;
    if root.None? || mount.None? || fstype.None? || substr.None? {
      return None;
    }
    if root.value == "" || mount.value == "" || fstype.value == "" || substr.value == "" {
      return None;
    }
    if fstype.value != "cgroup" || !Text.Contains(substr.value, subsys) {
      return None;
    }
    if |root.value| >= Utils.PathMax || Escapes(root.value) {
      return None;
    }
    return Some((mount.value, root.value));
  }

  /**
   * A mountinfo line laid out as proc(5) describes it: id, parent, device, root, mount
   * point, the mount options and optional fields, the "-" separator, filesystem type,
   * source and super options.
   */
  function MountinfoLine(id: string, parent: string, dev: string, root: string, mount: string,
                         opts: string, fstype: string, source: string, superOpts: string): string
  {
    id + " " + (parent + " " + (dev + " " + (root + " " + (mount + " " + Tail(opts, fstype, source, superOpts)))))
  }

  /** The part of a mountinfo line after the mount point. */
  function Tail(opts: string, fstype: string, source: string, superOpts: string): string
  {
    opts + " " + Separated(fstype, source, superOpts)
  }

  /** The "-" separator and the three fields after it. */
  function Separated(fstype: string, source: string, superOpts: string): string
  {
    "-" + " " + (fstype + " " + (source + " " + superOpts))
  }

  /** A field of a mountinfo line: no space inside. */
  predicate Field(s: string)
  {
    ' ' !in s
  }

  /**
   * On a well-formed mountinfo line cgroup_mount accepts exactly the cgroup mounts whose
   * super options mention the subsystem, with a non-empty root of bounded length that does
   * not start with "/..", and returns the mount point and root.
   */
  lemma MountinfoLineParsed(id: string, parent: string, dev: string, root: string, mount: string,
                            opts: string, fstype: string, source: string, superOpts: string, subsys: string)
    requires Field(id) && Field(parent) && Field(dev) && Field(root) && Field(mount)
    requires '-' !in opts && Field(fstype) && Field(source) && Field(superOpts)
    ensures CgroupMountSpec(MountinfoLine(id, parent, dev, root, mount, opts, fstype, source, superOpts), subsys) ==
      if root != "" && mount != "" && fstype == "cgroup" && superOpts != "" && Text.Contains(superOpts, subsys) &&
         |root| < Utils.PathMax && !Escapes(root)
      then Some((mount, root)) else None
  {
    var tail := Tail(opts, fstype, source, superOpts);
    var l := Some(MountinfoLine(id, parent, dev, root, mount, opts, fstype, source, superOpts));
    var afterRoot := Some(mount + " " + tail);
    assert Text.Skip(l, ' ', 3) == Some(root + " " + (mount + " " + tail)) by {
      LeadingFields(id, parent, dev, root + " " + (mount + " " + tail));
    }
    Text.FieldStep(root, ' ', mount + " " + tail);
    assert Text.Skip(l, ' ', 4) == afterRoot by {
      Text.SkipStep(l, ' ', 3);
    }
    Text.FieldStep(mount, ' ', tail);
    assert Text.Skip(l, ' ', 5) == Some(tail) by {
      Text.SkipStep(l, ' ', 4);
    }
    DashFound(opts, Separated(fstype, source, superOpts));
    SeparatedFields(fstype, source, superOpts);
  }

  /** Three leading fields skipped. */
  lemma LeadingFields(a: string, b: string, c: string, rest: string)
    requires Field(a) && Field(b) && Field(c)
    ensures Text.Skip(Some(a + " " + (b + " " + (c + " " + rest))), ' ', 3) == Some(rest)
  {
    Text.SkipField(a, ' ', b + " " + (c + " " + rest), 2);
    Text.SkipField(b, ' ', c + " " + rest, 1);
    Text.SkipField(c, ' ', rest, 0);
  }

  /** strchr(tail, '-') finds the separator when the options have no '-'. */
  lemma DashFound(opts: string, sep: string)
    requires '-' !in opts && sep != [] && sep[0] == '-'
    ensures Text.Strchr(Some(opts + " " + sep), '-') == Some(sep)
  {
    var s := opts + " " + sep;
    Text.IndexOfIs(s, '-', |opts| + 1);
    assert s[|opts| + 1..] == sep;
  }

  /** After the separator, the 2nd and 4th space-separated tokens are fstype and super options. */
  lemma SeparatedFields(fstype: string, source: string, superOpts: string)
    requires Field(fstype) && Field(source) && Field(superOpts)
    ensures Text.Token(Some(Separated(fstype, source, superOpts)), ' ', 1) == Some(fstype)
    ensures Text.Token(Some(Separated(fstype, source, superOpts)), ' ', 3) == Some(superOpts)
  {
    var dash := Some(Separated(fstype, source, superOpts));
    Text.SkipField("-", ' ', fstype + " " + (source + " " + superOpts), 0);
    Text.FieldStep(fstype, ' ', source + " " + superOpts);
    LeadingFields("-", fstype, source, superOpts);
    Text.LastField(superOpts, ' ');
  }

  /**
   * The checks of cgroup_root on its controllers and path fields: both present and
   * non-empty, the controllers mentioning `subsys`, the path of bounded length and not
   * starting with "/..". The result is the path with `prefix` stripped from its front
   * unless the prefix is "/".
   */
  function RootAccepts(substr: Option<string>, root: Option<string>, prefix: string, subsys: string): (r: Option<string>)
    ensures r.Some? ==> root.Some? && |r.value| <= |root.value| && r.value == root.value[|root.value| - |r.value|..]
  {
    if root.None? || substr.None? then None
    else if root.value == "" || substr.value == "" then None
    else if !Text.Contains(substr.value, subsys) then None
    else if |root.value| >= Utils.PathMax || Escapes(root.value) then None
    else if prefix != "/" && prefix <= root.value then Some(root.value[|prefix|..])
    else Some(root.value)
  }

  /**
   * cgroup_root on one line of /proc/<pid>/cgroup: the path (3rd ':' field) when the
   * controllers (2nd field) mention `subsys`, relative to the mount's root `prefix`.
   */
  function CgroupRootSpec(line: string, prefix: string, subsys: string): (r: Option<string>)
  {
    RootAccepts(Text.Token(Some(line), ':', 1), Text.Token(Some(line), ':', 2), prefix, subsys)
  }

  /** The strsep calls of cgroup_root, proved to pick the fields CgroupRootSpec names. */
  method CgroupRoot(line: string, prefix: string, subsys: string) returns (r: Option<string>)
    ensures r == CgroupRootSpec(line, prefix, subsys)
  {
    var l := Some(line);
    var ptr := l;
    var substr: Option<string> := None;
    for i := 0 to 2
      invariant ptr == Text.Skip(l, ':', i)
      invariant i > 0 ==> substr == Text.Token(l, ':', i - 1)
    {
      Text.SkipStep(l, ':', i);
      substr, ptr := Text.Strsep(ptr, ':');
    }
    var root;
    root, ptr := Text.Strsep(ptr, ':');
    if root.None? || substr.None? {
      return None;
    }
    if root.value == "" || substr.value == "" || !Text.Contains(substr.value, subsys) {
      return None;
    }
    if |root.value| >= Utils.PathMax || Escapes(root.value) {
      return None;
    }
    if prefix != "/" && prefix <= root.value {
      return Some(root.value[|prefix|..]);
    }
    return Some(root.value);
  }

  /**
   * On a line "id:controllers:path" without further ':' cgroup_root accepts exactly the
   * controllers mentioning the subsystem, and yields the path relative to the mount root.
   */
  lemma CgroupLineParsed(id: string, controllers: string, path: string, prefix: string, subsys: string)
    requires ':' !in id && ':' !in controllers && ':' !in path
    ensures CgroupRootSpec(id + ":" + (controllers + ":" + path), prefix, subsys) ==
      if controllers != "" && path != "" && Text.Contains(controllers, subsys) &&
         |path| < Utils.PathMax && !Escapes(path)
      then Some(if prefix != "/" && prefix <= path then path[|prefix|..] else path) else None
  {
    Text.SkipField(id, ':', controllers + ":" + path, 0);
    Text.FieldStep(controllers, ':', path);
    Text.SkipField(id, ':', controllers + ":" + path, 1);
    Text.SkipField(controllers, ':', path, 0);
    Text.LastField(path, ':');
  }

  // ---- parse_proc_file ----

  /**
   * parse_fn: a parser called with a line, the prefix buffer and the subsystem, returning
   * the string it found (or NULL) with the prefix buffer after the call.
   */
  type LineParser = (string, string, string) -> Option<(string, string)>

  /** cgroup_mount as a parse_fn: on success it copies the root into the prefix buffer. */
  const MountParse: LineParser := (line, prefix, subsys) => CgroupMountSpec(line, subsys)

  /** cgroup_root as a parse_fn: the prefix buffer is only read. */
  const RootParse: LineParser := (line, prefix, subsys) =>
    match CgroupRootSpec(line, prefix, subsys)
    case None => None
    case Some(root) => Some((root, prefix))

  /** A line as getline returned it: cut at its newline, skipped when empty, else parsed. */
  function Accept(parse: LineParser, prefix: string, subsys: string, raw: string): Option<(string, string)>
  {
    var cut := ErrorGeneric.CutAtNewline(raw);
    if cut == "" then None else parse(cut, prefix, subsys)
  }

  /** Accept as the function value scanned over the lines. */
  function Acceptor(parse: LineParser, prefix: string, subsys: string): string -> Option<(string, string)>
  {
    raw => Accept(parse, prefix, subsys, raw)
  }

  /** The message of a search that found no line. */
  function NotFound(subsys: string): string
  {
    "cgroup subsystem " + subsys + " not found"
  }

  /** What parse_proc_file returns (with the prefix buffer after it) and the error it writes last. */
  datatype ProcResult = ProcResult(value: Option<(string, string)>, written: Option<(int, string)>)

  /**
   * parse_proc_file: the first line accepted wins. An unopenable file, a read error and a
   * file with no accepted line write their errors. An accepted last line without a newline
   * has met the end of the stream while it was read: end of file, reported as not found,
   * or the read error, which is reported as such.
   */
  function ParseProcSpec(procf: string, file: ProcFile, parse: LineParser, prefix: string, subsys: string): (r: ProcResult)
    ensures r.value.None? <==> r.written.Some?
  {
    match file
    case Unopenable(e) =>
      ProcResult(None, Some((e.code, ErrorGeneric.Compose("open failed: " + procf, Some(e.text)))))
    case Readable(content, failure) =>
      var lines := Getlines(content);
      match FirstAccepted(lines, Acceptor(parse, prefix, subsys))
      case Some((k, found)) =>
        if k == |lines| - 1 && EndsOpen(content) then
          match failure
          case Some(e) => ProcResult(None, Some((e.code, ErrorGeneric.Compose("read error: " + procf, Some(e.text)))))
          case None => ProcResult(None, Some((-1, NotFound(subsys))))
        else ProcResult(Some(found), None)
      case None =>
        match failure
        case Some(e) => ProcResult(None, Some((e.code, ErrorGeneric.Compose("read error: " + procf, Some(e.text)))))
        case None => ProcResult(None, Some((-1, NotFound(subsys))))
  }

  /** parse_proc_file: the file opened, its lines scanned, and the outcome reported. */
  method ParseProcFile(err: ErrorGeneric.Error, procf: string, file: ProcFile, parse: LineParser, prefix: string, subsys: string)
    returns (found: Option<(string, string)>)
    modifies err
    ensures var s := ParseProcSpec(procf, file, parse, prefix, subsys);
      found == s.value && (err.code, err.msg) == Nvc.After(old((err.code, err.msg)), s.written)
  {
    if file.Unopenable? {
      var _ := ErrorGeneric.Set(err, file.e.code, file.e.text, "open failed: " + procf);
      return None;
    }
    var eof, ferror;
    found, eof, ferror := ScanLines(file.content, file.failure, parse, prefix, subsys);
    if ferror {
      var _ := ErrorGeneric.Set(err, file.failure.value.code, file.failure.value.text, "read error: " + procf);
      return None;
    }
    if found.None? || eof {
      var _ := ErrorGeneric.SetX(err, NotFound(subsys));
      return None;
    }
  }

  /**
   * The getline loop of parse_proc_file: what the parser returned for the line that
   * stopped it, and whether the stream then has its end-of-file or error indicator set.
   */
  method ScanLines(content: string, failure: Option<Nvc.Errno>, parse: LineParser, prefix: string, subsys: string)
    returns (found: Option<(string, string)>, eof: bool, ferror: bool)
    ensures var lines := Getlines(content);
      var first := FirstAccepted(lines, Acceptor(parse, prefix, subsys));
      (found == if first.Some? then Some(first.value.1) else None) &&
      (ferror <==> failure.Some? && (first.None? || (first.value.0 == |lines| - 1 && EndsOpen(content)))) &&
      (eof <==> failure.None? && (first.None? || (first.value.0 == |lines| - 1 && EndsOpen(content))))
  {
    var lines := Getlines(content);
    var i := 0;
    eof, ferror := false, false;
    found := None;
    while true
      invariant i <= |lines| && found.None?
      invariant forall j :: 0 <= j < i ==> Accept(parse, prefix, subsys, lines[j]).None?
      invariant eof <==> i == |lines| && i > 0 && EndsOpen(content) && failure.None?
      invariant ferror <==> i == |lines| && i > 0 && EndsOpen(content) && failure.Some?
      decreases |lines| - i
    {
      if i == |lines| {
        if failure.Some? {
          ferror := true;
        } else {
          eof := true;
        }
        AcceptedFirst(lines, parse, prefix, subsys, i);
        return;
      }
      var raw := lines[i];
      if i == |lines| - 1 && EndsOpen(content) {
        if failure.None? {
          eof := true;
        } else {
          ferror := true;
        }
      }
      i := i + 1;
      var cut := ErrorGeneric.CutAtNewline(raw);
      if cut == "" {
        continue;
      }
      found := parse(cut, prefix, subsys);
      if found.Some? {
        AcceptedFirst(lines, parse, prefix, subsys, i - 1);
        return;
      }
    }
  }

  /** FirstAccepted over Accept: the first line every earlier line is rejected before. */
  lemma AcceptedFirst(lines: seq<string>, parse: LineParser, prefix: string, subsys: string, k: nat)
    requires k <= |lines| && forall j :: 0 <= j < k ==> Accept(parse, prefix, subsys, lines[j]).None?
    requires k < |lines| ==> Accept(parse, prefix, subsys, lines[k]).Some?
    ensures FirstAccepted(lines, Acceptor(parse, prefix, subsys)) ==
      if k == |lines| then None else Some((k, Accept(parse, prefix, subsys, lines[k]).value))
  {
    FirstAcceptedIs(lines, Acceptor(parse, prefix, subsys), k);
  }

  /** A file whose first line the parser accepts yields that line's result. */
  lemma FirstLineWins(procf: string, line: string, rest: string, failure: Option<Nvc.Errno>,
                      parse: LineParser, prefix: string, subsys: string)
    requires line != "" && '\n' !in line && parse(line, prefix, subsys).Some?
    ensures ParseProcSpec(procf, Readable(line + "\n" + rest, failure), parse, prefix, subsys) ==
      ProcResult(parse(line, prefix, subsys), None)
  {
    GetlinesCons(line, rest);
    CutTerminated(line);
    var lines := Getlines(line + "\n" + rest);
    AcceptedFirst(lines, parse, prefix, subsys, 0);
  }

  /**
   * A file that is one accepted line without a newline is reported as not found: getline
   * met end of file while reading that line.
   */
  lemma UnterminatedMatchNotFound(procf: string, line: string, parse: LineParser, prefix: string, subsys: string)
    requires line != [] && '\n' !in line && parse(line, prefix, subsys).Some?
    ensures ParseProcSpec(procf, Readable(line, None), parse, prefix, subsys) ==
      ProcResult(None, Some((-1, NotFound(subsys))))
  {
    GetlinesOpen(line);
    ErrorGeneric.CutWithoutNewline(line);
    AcceptedFirst([line], parse, prefix, subsys, 0);
  }

  /**
   * A file that is one accepted line without a newline, whose reading then fails, reports
   * the read error: getline returned the line with the error indicator set.
   */
  lemma UnterminatedMatchReadError(procf: string, line: string, e: Nvc.Errno, parse: LineParser, prefix: string, subsys: string)
    requires line != [] && '\n' !in line && parse(line, prefix, subsys).Some?
    ensures ParseProcSpec(procf, Readable(line, Some(e)), parse, prefix, subsys) ==
      ProcResult(None, Some((e.code, ErrorGeneric.Compose("read error: " + procf, Some(e.text)))))
  {
    GetlinesOpen(line);
    ErrorGeneric.CutWithoutNewline(line);
    AcceptedFirst([line], parse, prefix, subsys, 0);
  }

  /** Lines the parser rejects, and empty lines, are passed over. */
  lemma RejectedLineSkipped(procf: string, line: string, rest: string, failure: Option<Nvc.Errno>,
                            parse: LineParser, prefix: string, subsys: string)
    requires '\n' !in line && (line == "" || parse(line, prefix, subsys).None?)
    ensures ParseProcSpec(procf, Readable(line + "\n" + rest, failure), parse, prefix, subsys).value ==
      ParseProcSpec(procf, Readable(rest, failure), parse, prefix, subsys).value
  {
    GetlinesCons(line, rest);
    CutTerminated(line);
    EndsOpenCons(line, rest);
    var f := Acceptor(parse, prefix, subsys);
    assert f(line + "\n").None?;
    FirstAcceptedSkip(line + "\n", Getlines(rest), f);
  }

  /** A line cut at its newline is the line itself. */
  lemma CutTerminated(line: string)
    requires '\n' !in line
    ensures ErrorGeneric.CutAtNewline(line + "\n") == line
  {
    ErrorGeneric.NewlineAfter(line, "\n");
    assert ErrorGeneric.CutAtNewline("\n") == "";
  }

  // ---- find_cgroup_path ----

  /** The directory /proc files are read under: the container's root in standalone mode. */
  function ProcPrefix(standalone: bool, rootfs: string): string
  {
    if standalone then rootfs else ""
  }

  /** prefix + "/proc/<pid>/mountinfo". */
  function MountsPath(prefix: string, pid: nat): string
  {
    prefix + "/proc/" + Text.Decimal(pid) + "/mountinfo"
  }

  /** prefix + "/proc/<pid>/cgroup". */
  function CgroupFilePath(prefix: string, pid: nat): string
  {
    prefix + "/proc/" + Text.Decimal(pid) + "/cgroup"
  }

  /** The message of a path that does not fit in PATH_MAX. */
  const FormatFailed: string := "string formatting failed"

  /**
   * find_cgroup_path for the container process `pid` whose parent is `ppid`: the mount
   * point of the subsystem's hierarchy as seen by `pid` (standalone) or the runtime's
   * parent (supervised), followed by the container's cgroup relative to that mount's root.
   * `fs` gives the files as they read.
   */
  function CgroupPathSpec(standalone: bool, pid: nat, rootfs: string, ppid: nat,
                          fs: string -> ProcFile, subsys: string): (r: (Option<string>, Option<(int, string)>))
    ensures r.0.None? <==> r.1.Some?
  {
    var prefix := ProcPrefix(standalone, rootfs);
    var mounts := MountsPath(prefix, if standalone then pid else ppid);
    if |mounts| >= Utils.PathMax then (None, Some((-1, FormatFailed)))
    else
      var m := ParseProcSpec(mounts, fs(mounts), MountParse, "", subsys);
      if m.value.None? then (None, m.written)
      else
        var cgroups := CgroupFilePath(prefix, pid);
        if |cgroups| >= Utils.PathMax then (None, Some((-1, FormatFailed)))
        else
          var c := ParseProcSpec(cgroups, fs(cgroups), RootParse, m.value.value.1, subsys);
          if c.value.None? then (None, c.written)
          else (Some(prefix + m.value.value.0 + c.value.value.0), None)
  }

  /** find_cgroup_path: two proc files parsed in turn, and the pieces joined. */
  method FindCgroupPath(err: ErrorGeneric.Error, standalone: bool, pid: nat, rootfs: string, ppid: nat,
                        fs: string -> ProcFile, subsys: string) returns (cgroup: Option<string>)
    modifies err
    ensures var s := CgroupPathSpec(standalone, pid, rootfs, ppid, fs, subsys);
      cgroup == s.0 && (err.code, err.msg) == Nvc.After(old((err.code, err.msg)), s.1)
  {
    var prefix := ProcPrefix(standalone, rootfs);
    var path := MountsPath(prefix, if standalone then pid else ppid);
    if |path| >= Utils.PathMax {
      var _ := ErrorGeneric.SetX(err, FormatFailed);
      return None;
    }
    var mount := ParseProcFile(err, path, fs(path), MountParse, "", subsys);
    if mount.None? {
      return None;
    }
    var rootPrefix := mount.value.1;
    path := CgroupFilePath(prefix, pid);
    if |path| >= Utils.PathMax {
      var _ := ErrorGeneric.SetX(err, FormatFailed);
      return None;
    }
    var root := ParseProcFile(err, path, fs(path), RootParse, rootPrefix, subsys);
    if root.None? {
      return None;
    }
    return Some(prefix + mount.value.0 + root.value.0);
  }

  /**
   * The cgroup path is the prefix, then the mount point found in the mountinfo file, then
   * the container's cgroup found in its cgroup file relative to that mount's root.
   */
  lemma CgroupPathJoined(standalone: bool, pid: nat, rootfs: string, ppid: nat, fs: string -> ProcFile,
                         subsys: string, mount: string, root: string, rel: string)
    requires |MountsPath(ProcPrefix(standalone, rootfs), if standalone then pid else ppid)| < Utils.PathMax
    requires |CgroupFilePath(ProcPrefix(standalone, rootfs), pid)| < Utils.PathMax
    requires var mounts := MountsPath(ProcPrefix(standalone, rootfs), if standalone then pid else ppid);
      ParseProcSpec(mounts, fs(mounts), MountParse, "", subsys).value == Some((mount, root))
    requires var cgroups := CgroupFilePath(ProcPrefix(standalone, rootfs), pid);
      ParseProcSpec(cgroups, fs(cgroups), RootParse, root, subsys).value == Some((rel, root))
    ensures CgroupPathSpec(standalone, pid, rootfs, ppid, fs, subsys) == (Some(ProcPrefix(standalone, rootfs) + mount + rel), None)
  {
  }

  // ---- nvc_container_new ----

  /** `struct nvc_container_config`: NULL strings are None. */
  datatype ContainerConfig = ContainerConfig(
    pid: int, rootfs: Option<string>, binsDir: Option<string>, libsDir: Option<string>,
    libs32Dir: Option<string>, cudartDir: Option<string>, ldconfig: Option<string>)

  /** The options used when none are given. */
  const DefaultContainerOpts: string := "standalone no-cgroups no-devbind"

  /**
   * The argument check of nvc_container_new: a positive pid, an absolute non-empty rootfs,
   * and no directory given as the empty string (a NULL one is allowed).
   */
  predicate ArgsValid(cfg: Option<ContainerConfig>)
  {
    cfg.Some? && cfg.value.pid > 0 && cfg.value.rootfs.Some? && !Utils.StrEmpty(cfg.value.rootfs) &&
    cfg.value.rootfs.value[0] == '/' &&
    !Utils.StrEmpty(cfg.value.binsDir) && !Utils.StrEmpty(cfg.value.libsDir) && !Utils.StrEmpty(cfg.value.libs32Dir) &&
    !Utils.StrEmpty(cfg.value.cudartDir) && !Utils.StrEmpty(cfg.value.ldconfig)
  }

  /** Exactly one of supervised and standalone is set. */
  predicate ModeValid(flags: Options.Flags)
  {
    (Options.OptSupervised <= flags) != (Options.OptStandalone <= flags)
  }

  /** prefix + "/proc/<pid>/ns/<ns>". */
  function NamespacePath(prefix: string, pid: nat, ns: string): string
  {
    prefix + "/proc/" + Text.Decimal(pid) + "/ns/" + ns
  }

  /** What nvc_container_new fills in that this model follows. */
  datatype ContainerInfo = ContainerInfo(flags: Options.Flags, pid: nat, rootfs: string, mntNs: string, devCg: Option<string>)

  /**
   * nvc_container_new on an initialized context. `prepare` stands for copy_config,
   * lookup_owner and find_library_paths, whose failure ends the call with their error.
   */
  function ContainerNewSpec(cfg: Option<ContainerConfig>, opts: Option<string>, argMax: nat, prepare: Nvc.Call<()>,
                            ppid: nat, fs: string -> ProcFile): (r: (Option<ContainerInfo>, Option<(int, string)>))
    ensures r.0.None? <==> r.1.Some?
    ensures r.0.Some? ==>
      ArgsValid(cfg) && ModeValid(r.0.value.flags) && r.0.value.pid == cfg.value.pid &&
      r.0.value.rootfs == cfg.value.rootfs.value && prepare.Done?
  {
    if !ArgsValid(cfg) then (None, Some((-1, "invalid argument")))
    else
      match Options.Parse(opts.UnwrapOr(DefaultContainerOpts), Options.ContainerOpts, argMax)
      case Failure(msg) => (None, Some((-1, msg)))
      case Success(flags) =>
        if !ModeValid(flags) then (None, Some((-1, "invalid mode of operation")))
        else
          match prepare
          case Failed(code, msg) => (None, Some((code, msg)))
          case Done(_) => Located(cfg.value.pid, cfg.value.rootfs.value, flags, ppid, fs)
  }

  /** The namespace and cgroup lookups that end nvc_container_new. */
  function Located(pid: nat, rootfs: string, flags: Options.Flags, ppid: nat, fs: string -> ProcFile)
    : (r: (Option<ContainerInfo>, Option<(int, string)>))
    ensures r.0.None? <==> r.1.Some?
    ensures r.0.Some? ==> r.0.value.flags == flags && r.0.value.pid == pid && r.0.value.rootfs == rootfs
    ensures r.0.Some? ==> (r.0.value.devCg.None? <==> Options.OptNoCgroups <= flags)
  {
    var standalone := Options.OptStandalone <= flags;
    var ns := NamespacePath(ProcPrefix(standalone, rootfs), pid, "mnt");
    if Options.OptNoCgroups <= flags then (Some(ContainerInfo(flags, pid, rootfs, ns, None)), None)
    else
      var (cg, w) := CgroupPathSpec(standalone, pid, rootfs, ppid, fs, "devices");
      if cg.None? then (None, w) else (Some(ContainerInfo(flags, pid, rootfs, ns, cg)), None)
  }

  /**
   * nvc_container_new: a NULL or uninitialized context, invalid arguments, unparsable
   * options or an invalid mode stop it with the error set; otherwise it follows
   * ContainerNewSpec.
   */
  method ContainerNew(ctx: Context?, cfg: Option<ContainerConfig>, opts: Option<string>, argMax: nat,
                      prepare: Nvc.Call<()>, ppid: nat, fs: string -> ProcFile) returns (cnt: Option<ContainerInfo>)
    modifies if ctx != null then {ctx.err} else {}
    ensures ctx == null ==> cnt.None?
    ensures ctx != null && !ctx.initialized ==>
      cnt.None? && ctx.err.code == -1 && ctx.err.msg == Some("context uninitialized")
    ensures ctx != null && ctx.initialized ==>
      var s := ContainerNewSpec(cfg, opts, argMax, prepare, ppid, fs);
      cnt == s.0 && (ctx.err.code, ctx.err.msg) == Nvc.After(old((ctx.err.code, ctx.err.msg)), s.1)
  {
    var rc := ValidateContext(ctx);
    if rc < 0 {
      return None;
    }
    rc := ValidateArgs(ctx, ArgsValid(cfg));
    if rc < 0 {
      return None;
    }
    var options := if opts.Some? then opts.value else DefaultContainerOpts;
    var flags := Options.OptionsParse(options, Options.ContainerOpts, argMax);
    if flags.Failure? {
      var _ := ErrorGeneric.SetX(ctx.err, flags.error);
      return None;
    }
    if !ModeValid(flags.value) {
      var _ := ErrorGeneric.SetX(ctx.err, "invalid mode of operation");
      return None;
    }
    if prepare.Failed? {
      Nvc.Record(ctx.err, prepare.code, prepare.msg);
      return None;
    }
    var c := cfg.value;
    var pid: nat := c.pid;
    var standalone := Options.OptStandalone <= flags.value;
    var ns := NamespacePath(ProcPrefix(standalone, c.rootfs.value), pid, "mnt");
    var devCg: Option<string> := None;
    if !(Options.OptNoCgroups <= flags.value) {
      devCg := FindCgroupPath(ctx.err, standalone, pid, c.rootfs.value, ppid, fs, "devices");
      if devCg.None? {
        return None;
      }
    }
    return Some(ContainerInfo(flags.value, pid, c.rootfs.value, ns, devCg));
  }

  /** A relative or empty rootfs, or a pid that is not positive, is an invalid argument. */
  lemma RejectsBadArgs(c: ContainerConfig, opts: Option<string>, argMax: nat, prepare: Nvc.Call<()>,
                       ppid: nat, fs: string -> ProcFile)
    requires c.pid <= 0 || c.rootfs.None? || c.rootfs == Some("") || (c.rootfs.Some? && c.rootfs.value[0] != '/')
    ensures ContainerNewSpec(Some(c), opts, argMax, prepare, ppid, fs) == (None, Some((-1, "invalid argument")))
  {
  }

  /** Options naming both modes, or neither, are refused whatever else holds. */
  lemma RejectsAmbiguousMode(cfg: Option<ContainerConfig>, opts: Option<string>, argMax: nat, prepare: Nvc.Call<()>,
                             ppid: nat, fs: string -> ProcFile)
    requires ArgsValid(cfg)
    requires Options.Parse(opts.UnwrapOr(DefaultContainerOpts), Options.ContainerOpts, argMax).Success?
    requires var flags := Options.Parse(opts.UnwrapOr(DefaultContainerOpts), Options.ContainerOpts, argMax).value;
      (Options.OptSupervised <= flags) == (Options.OptStandalone <= flags)
    ensures ContainerNewSpec(cfg, opts, argMax, prepare, ppid, fs) == (None, Some((-1, "invalid mode of operation")))
  {
  }
}
