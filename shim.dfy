/**
 * The runtime shim of cmd/main.go: it classifies the wrapped runtime's command line,
 * and for `create` injects the NVIDIA prestart hook into the bundle's OCI spec before
 * handing over to runc. Looking up binaries, the working directory, file contents and
 * the exec system call are inputs to the model.
 */
module Shim {
  import opened Wrappers
  import opened OciSpec
  import Text
  import GoPath

  /** "/usr/bin/nvidia-container-runtime-hook". */
  const HookDefaultFilePath: string := "/usr/bin" + ("/" + HookName)
  const ConfigFileName := "config.json"
  const NeedsArgument := "bundle option needs an argument"

  /** The two facts getArgs extracts from the command line. */
  datatype Args = Args(bundleDirPath: string, cmd: string)

  const NoArgs := Args("", "")

  /** What one command-line token means to getArgs. */
  datatype Token =
    | CreateCommand            // the bare word `create`
    | BundleValue(path: string) // `-b=PATH`, `--bundle=PATH`, any number of dashes
    | BundleFlag               // `-b`, `--bundle`: the path is the next token
    | Other

  /** A run of `n` dashes. */
  function Dashes(n: nat): (r: string)
    ensures |r| == n && forall k :: 0 <= k < n ==> r[k] == '-'
  {
    seq(n, _ => '-')
  }

  predicate IsBundleName(s: string) { s == "bundle" || s == "b" }

  function Classify(param: string): (t: Token)
    ensures t == CreateCommand <==> param == "create"
    ensures param != "create" && !("-" <= param) ==> t == Other
  {
    if param == "create" then CreateCommand
    else if !("-" <= param) then Other
    else
      var trimmed := Text.TrimLeft(param, '-');
      if trimmed == "" then Other
      else
        var parts := Text.SplitFirst(trimmed, '=');
        if !IsBundleName(parts[0]) then Other
        else if |parts| == 2 then BundleValue(parts[1])
        else BundleFlag
  }

  lemma TrimDashes(n: nat, s: string)
    requires s == [] || s[0] != '-'
    ensures Text.TrimLeft(Dashes(n) + s, '-') == s
  {
    var p := Dashes(n) + s;
    Text.SpanIs(p, {'-'}, n);
    assert p[n..] == s;
  }

  /** A string is its leading dashes followed by the rest (what TrimLeft keeps). */
  lemma LeadingDashes(s: string)
    ensures s == Dashes(Text.Span(s, {'-'})) + Text.TrimLeft(s, '-')
  {
    var n := Text.Span(s, {'-'});
    assert s[..n] == Dashes(n);
    assert s == s[..n] + s[n..];
  }

  /** A token made only of dashes is ignored. */
  lemma AllDashesIgnored(n: nat)
    ensures Classify(Dashes(n)) == Other
  {
    var p := Dashes(n);
    if n > 0 {
      assert p[0] != "create"[0];
      TrimDashes(n, "");
      assert p + "" == p;
    }
  }

  /** `name=path` split at its first '=' when the name has none. */
  lemma SplitAtName(name: string, path: string)
    requires '=' !in name
    ensures Text.SplitFirst(name + "=" + path, '=') == [name, path]
  {
    var s := name + "=" + path;
    Text.IndexOfIs(s, '=', |name|);
    assert s[..|name|] == name && s[|name| + 1..] == path;
  }

  /** Any number of dashes, `bundle` or `b`, '=' and a path: the path after the first '='. */
  lemma BundleValueOf(n: nat, name: string, path: string)
    requires n >= 1 && IsBundleName(name)
    ensures Classify(Dashes(n) + (name + "=" + path)) == BundleValue(path)
  {
    var p := Dashes(n) + (name + "=" + path);
    assert p[0] == '-';
    assert "-" <= p;
    TrimDashes(n, name + "=" + path);
    SplitAtName(name, path);
  }

  /** Any number of dashes then `bundle` or `b`: the path is the next token. */
  lemma BundleFlagOf(n: nat, name: string)
    requires n >= 1 && IsBundleName(name)
    ensures Classify(Dashes(n) + name) == BundleFlag
  {
    var p := Dashes(n) + name;
    assert p[0] == '-';
    assert "-" <= p;
    BundleNameFacts(name);
    TrimDashes(n, name);
  }

  /** `bundle` and `b` start with no dash and hold no '='. */
  lemma BundleNameFacts(name: string)
    requires IsBundleName(name)
    ensures name[0] != '-' && Text.SplitFirst(name, '=') == [name]
  {
    if name == "b" {
      Text.IndexOfIs(name, '=', 1);
    } else {
      Text.IndexOfIs(name, '=', 6);
    }
  }

  /** Conversely, a token read as `bundle=PATH` is dashes, `bundle` or `b`, '=' and PATH. */
  lemma BundleValueShape(param: string, path: string)
    requires Classify(param) == BundleValue(path)
    ensures exists n: nat, name: string :: n >= 1 && IsBundleName(name) && param == Dashes(n) + (name + "=" + path)
  {
    var n := Text.Span(param, {'-'});
    var trimmed := Text.TrimLeft(param, '-');
    assert param != "create";
    assert "-" <= param;
    assert trimmed != "";
    var parts := Text.SplitFirst(trimmed, '=');
    assert |parts| == 2;
    assert parts[1] == path;
    assert IsBundleName(parts[0]);
    assert trimmed == parts[0] + "=" + path;
    LeadingDashes(param);
    assert param == Dashes(n) + (parts[0] + "=" + path);
  }

  /** Conversely, a token read as a bare bundle flag is dashes and `bundle` or `b`. */
  lemma BundleFlagShape(param: string)
    requires Classify(param) == BundleFlag
    ensures exists n: nat, name: string :: n >= 1 && IsBundleName(name) && param == Dashes(n) + name
  {
    LeadingDashes(param);
    assert param != "create" && "-" <= param;
  }

  /** getArgs on the tokens still to read, given what the earlier tokens set. */
  function ParseArgs(argv: seq<string>, acc: Args): (r: Result<Args, string>)
    ensures r.Failure? ==> r.error == NeedsArgument
    decreases |argv|
  {
    if argv == [] then Success(acc)
    else match Classify(argv[0])
      case CreateCommand => ParseArgs(argv[1..], acc.(cmd := "create"))
      case Other => ParseArgs(argv[1..], acc)
      case BundleValue(p) => ParseArgs(argv[1..], acc.(bundleDirPath := p))
      case BundleFlag =>
        if |argv| <= 1 then Failure(NeedsArgument)
        else ParseArgs(argv[2..], acc.(bundleDirPath := argv[1]))
  }

  /** One step of getArgs at position i of argv. */
  lemma ParseArgsAt(argv: seq<string>, i: nat, acc: Args)
    requires i < |argv|
    ensures ParseArgs(argv[i..], acc) ==
      match Classify(argv[i])
      case CreateCommand => ParseArgs(argv[i + 1..], acc.(cmd := "create"))
      case Other => ParseArgs(argv[i + 1..], acc)
      case BundleValue(p) => ParseArgs(argv[i + 1..], acc.(bundleDirPath := p))
      case BundleFlag =>
        if |argv| - i <= 1 then Failure(NeedsArgument)
        else ParseArgs(argv[i + 2..], acc.(bundleDirPath := argv[i + 1]))
  {
    assert argv[i..][0] == argv[i];
    assert argv[i..][1..] == argv[i + 1..];
    if i + 1 < |argv| {
      assert argv[i..][1] == argv[i + 1];
      assert argv[i..][2..] == argv[i + 2..];
    }
  }

  /** getArgs: a loop over argv that advances its index by hand past a flag's value. */
  method GetArgs(argv: seq<string>) returns (r: Result<Args, string>)
    ensures r == ParseArgs(argv, NoArgs)
  {
    var args := NoArgs;
    var i := 0;
    while i < |argv|
      invariant i <= |argv|
      invariant ParseArgs(argv[i..], args) == ParseArgs(argv, NoArgs)
    {
      var param := argv[i];
      ParseArgsAt(argv, i, args);
      if param == "create" {
        args := args.(cmd := param);
      } else if "-" <= param {
        var trimmed := Text.TrimLeft(param, '-');
        if trimmed != "" {
          var parts := Text.SplitFirst(trimmed, '=');
          if IsBundleName(parts[0]) {
            if |parts| == 2 {
              args := args.(bundleDirPath := parts[1]);
            } else {
              if |argv| - i <= 1 {
                return Failure(NeedsArgument);
              }
              args := args.(bundleDirPath := argv[i + 1]);
              i := i + 1;
            }
          }
        }
      }
      i := i + 1;
    }
    return Success(args);
  }

  /** Reading argv in two parts: a part that parses cleanly leaves nothing pending. */
  lemma {:induction false} ParseArgsConcat(a: seq<string>, b: seq<string>, acc: Args)
    requires ParseArgs(a, acc).Success?
    ensures ParseArgs(a + b, acc) == ParseArgs(b, ParseArgs(a, acc).value)
    decreases |a|
  {
    if a == [] {
      assert a + b == b;
    } else {
      var k, next := ParseArgsFirst(a, b, acc);
      ParseArgsConcat(a[k..], b, next);
    }
  }

  /** The first step over `a` is the same step over `a + b` when it stays within `a`. */
  lemma ParseArgsFirst(a: seq<string>, b: seq<string>, acc: Args) returns (k: nat, next: Args)
    requires a != [] && ParseArgs(a, acc).Success?
    ensures 0 < k <= |a|
    ensures ParseArgs(a, acc) == ParseArgs(a[k..], next)
    ensures ParseArgs(a + b, acc) == ParseArgs(a[k..] + b, next)
  {
    if Classify(a[0]).BundleFlag? {
      k, next := 2, acc.(bundleDirPath := a[1]);
      FlagFirst(a, b, acc, a + b);
    } else {
      k := 1;
      next := match Classify(a[0])
        case CreateCommand => acc.(cmd := "create")
        case BundleValue(p) => acc.(bundleDirPath := p)
        case _ => acc;
      TokenHead(a, a[1..], acc, next);
      assert (a + b)[0] == a[0] && (a + b)[1..] == a[1..] + b;
      TokenHead(a + b, a[1..] + b, acc, next);
    }
  }

  /** A bundle flag and its value, both within `a`. */
  lemma FlagFirst(a: seq<string>, b: seq<string>, acc: Args, ab: seq<string>)
    requires a != [] && Classify(a[0]).BundleFlag? && ParseArgs(a, acc).Success?
    requires ab == a + b
    ensures |a| > 1
    ensures ParseArgs(a, acc) == ParseArgs(a[2..], acc.(bundleDirPath := a[1]))
    ensures ParseArgs(ab, acc) == ParseArgs(a[2..] + b, acc.(bundleDirPath := a[1]))
  {
    assert |a| > 1;
    assert ab[0] == a[0] && ab[1] == a[1] && ab[2..] == a[2..] + b;
  }

  /** A standalone token followed by `rest`. */
  lemma TokenHead(x: seq<string>, rest: seq<string>, acc: Args, next: Args)
    requires x != [] && rest == x[1..] && !Classify(x[0]).BundleFlag?
    requires next == match Classify(x[0])
        case CreateCommand => acc.(cmd := "create")
        case BundleValue(p) => acc.(bundleDirPath := p)
        case _ => acc
    ensures ParseArgs(x, acc) == ParseArgs(rest, next)
  {
  }

  /**
   * The effect of each kind of token appended to a cleanly parsed prefix: `create` sets
   * the command, a bundle flag sets (or overwrites) the path, consuming the next token
   * when it has no '=', and a flag with nothing after it is an error.
   */
  lemma ParseArgsStep(a: seq<string>, t: string, v: string)
    requires ParseArgs(a, NoArgs).Success?
    ensures var m := ParseArgs(a, NoArgs).value;
      match Classify(t)
      case CreateCommand => ParseArgs(a + [t], NoArgs) == Success(m.(cmd := "create"))
      case Other => ParseArgs(a + [t], NoArgs) == Success(m)
      case BundleValue(p) => ParseArgs(a + [t], NoArgs) == Success(m.(bundleDirPath := p))
      case BundleFlag =>
        ParseArgs(a + [t], NoArgs) == Failure(NeedsArgument) &&
        ParseArgs(a + [t, v], NoArgs) == Success(m.(bundleDirPath := v))
  {
    ParseArgsConcat(a, [t], NoArgs);
    ParseArgsConcat(a, [t, v], NoArgs);
    assert [t, v][2..] == [];
  }

  /** Only the bare word `create` ever sets the command. */
  lemma {:induction false} ParseArgsCmd(argv: seq<string>, acc: Args)
    requires ParseArgs(argv, acc).Success?
    ensures var c := ParseArgs(argv, acc).value.cmd; c == acc.cmd || c == "create"
    ensures "create" !in argv ==> ParseArgs(argv, acc).value.cmd == acc.cmd
    decreases |argv|
  {
    if argv != [] {
      match Classify(argv[0])
      case CreateCommand => ParseArgsCmd(argv[1..], acc.(cmd := "create"));
      case Other => ParseArgsCmd(argv[1..], acc);
      case BundleValue(p) => ParseArgsCmd(argv[1..], acc.(bundleDirPath := p));
      case BundleFlag =>
        assert argv[2..] == argv[1..][1..];
        ParseArgsCmd(argv[2..], acc.(bundleDirPath := argv[1]));
    }
  }

  // ---------------------------------------------------------------------------------
  // The OCI spec and the hook injection

  /** The hooks after addNVIDIAHook has resolved the hook binary to `path`. */
  function InjectHook(hooks: Option<Hooks>, path: string): Hooks
  {
    match hooks
    case None => Hooks([PrestartHook(path)], [], [])
    case Some(h) =>
      if HasNvidiaHook(h.prestart) then h
      else h.(prestart := h.prestart + [PrestartHook(path)])
  }

  /**
   * Injection keeps every existing hook in place: existing prestart hooks stay a prefix,
   * at most one hook is added, and the poststart and poststop lists are untouched.
   */
  lemma InjectKeepsExisting(hooks: Hooks, path: string)
    ensures var r := InjectHook(Some(hooks), path);
      hooks.prestart <= r.prestart && |r.prestart| <= |hooks.prestart| + 1 &&
      r.poststart == hooks.poststart && r.poststop == hooks.poststop
  {
  }

  /** With a resolved hook path, injecting twice is the same as injecting once. */
  lemma InjectIdempotent(hooks: Option<Hooks>, path: string, path2: string)
    requires Text.Contains(path, HookName)
    ensures InjectHook(Some(InjectHook(hooks, path)), path2) == InjectHook(hooks, path)
  {
    var r := InjectHook(hooks, path);
    if !(hooks.Some? && HasNvidiaHook(hooks.value.prestart)) {
      var k := |r.prestart| - 1;
      assert IsNvidiaHook(r.prestart[k]);
    }
  }

  /** Starting from zero or one NVIDIA hook, exactly one results. */
  lemma InjectExactlyOne(hooks: Option<Hooks>, path: string)
    requires Text.Contains(path, HookName)
    requires hooks.Some? ==> NvidiaHookCount(hooks.value.prestart) <= 1
    ensures NvidiaHookCount(InjectHook(hooks, path).prestart) == 1
  {
    match hooks
    case None =>
      assert [PrestartHook(path)][..0] == [];
    case Some(h) =>
      NoNvidiaHookCount(h.prestart);
      if !HasNvidiaHook(h.prestart) {
        var s := h.prestart + [PrestartHook(path)];
        assert s[..|s| - 1] == h.prestart;
      }
  }

  /** exec.LookPath of the hook (found in PATH directory `found`), else the default path. */
  function ResolveHookPath(found: Option<string>, defaultStat: Option<string>): Result<string, string>
  {
    match found
    case Some(dir) => Success(GoPath.Join(dir, HookName))
    case None =>
      if defaultStat.Some? then Failure(defaultStat.value) else Success(HookDefaultFilePath)
  }

  /** Every path the resolution can produce names the hook binary. */
  lemma ResolvedPathNamesHook(found: Option<string>, defaultStat: Option<string>)
    requires ResolveHookPath(found, defaultStat).Success?
    ensures Text.Contains(ResolveHookPath(found, defaultStat).value, HookName)
  {
    var p := ResolveHookPath(found, defaultStat).value;
    if found.Some? {
      HookNameIsName();
      GoPath.JoinWithName(found.value, HookName);
    } else {
      DefaultPathEndsInHook();
    }
    Text.ContainsLastElement(p, HookName);
  }

  /** The hook's file name is a single plain path element. */
  lemma HookNameIsName()
    ensures GoPath.IsName(HookName) && '/' !in HookName
  {
  }

  /** The default hook path is the hook's name under /usr/bin. */
  lemma DefaultPathEndsInHook()
    ensures Text.HasSuffix(HookDefaultFilePath, "/" + HookName)
  {
    GoPath.SuffixAfter("/usr/bin", "/" + HookName);
  }

  /** The scan over the prestart hooks that decides whether one is already there. */
  method FindNvidiaHook(prestart: seq<Hook>) returns (present: bool)
    ensures present == HasNvidiaHook(prestart)
  {
    var i := 0;
    while i < |prestart|
      invariant i <= |prestart|
      invariant forall k :: 0 <= k < i ==> !IsNvidiaHook(prestart[k])
    {
      if IsNvidiaHook(prestart[i]) {
        return true;
      }
      i := i + 1;
    }
    return false;
  }

  /**
   * addNVIDIAHook: resolve the hook binary first (an error leaves the spec untouched,
   * even when a hook is already present), then append it unless one is there.
   */
  method AddNvidiaHook(spec: Spec, found: Option<string>, defaultStat: Option<string>)
    returns (err: Option<string>)
    modifies spec
    ensures var p := ResolveHookPath(found, defaultStat);
      if p.Failure? then err == Some(p.error) && spec.Value() == old(spec.Value())
      else err == None && spec.Value() == SpecValue(Some(InjectHook(old(spec.hooks), p.value)), old(spec.rest))
  {
    var path: string;
    match found {
      case Some(dir) => path := GoPath.Join(dir, HookName);
      case None =>
        path := HookDefaultFilePath;
        if defaultStat.Some? {
          return defaultStat;
        }
    }
    assert ResolveHookPath(found, defaultStat) == Success(path);
    if spec.hooks.None? {
      spec.hooks := Some(Hooks([], [], []));
    } else if |spec.hooks.value.prestart| != 0 {
      var present := FindNvidiaHook(spec.hooks.value.prestart);
      if present {
        return None;
      }
    }
    assert old(spec.hooks).Some? ==> !HasNvidiaHook(old(spec.hooks).value.prestart);
    var h := spec.hooks.value;
    assert h.prestart == old(if spec.hooks.None? then [] else spec.hooks.value.prestart);
    assert h.(prestart := h.prestart + [PrestartHook(path)]) == InjectHook(old(spec.hooks), path);
    spec.hooks := Some(h.(prestart := h.prestart + [PrestartHook(path)]));
    return None;
  }

  // ---------------------------------------------------------------------------------
  // Locating config.json and the create / pass-through decision

  /** getConfigFilePath: the bundle directory, or the working directory when it is empty. */
  function ConfigFilePath(bundleDirPath: string, getwd: Result<string, string>): (r: Result<string, string>)
    ensures r.Failure? <==> bundleDirPath == "" && getwd.Failure?
    ensures r.Failure? ==> r.error == "error getting working directory: " + getwd.error
    ensures r.Success? ==> r.value == ConfigFileName || Text.HasSuffix(r.value, "/" + ConfigFileName)
    ensures r.Success? ==>
      var dir := GoPath.Clean(if bundleDirPath != "" then bundleDirPath else getwd.value);
      r.value == if dir == "." then ConfigFileName else if dir == "/" then "/" + ConfigFileName else dir + "/" + ConfigFileName
  {
    var root := if bundleDirPath != "" then Success(bundleDirPath) else getwd;
    if root.Failure? then Failure("error getting working directory: " + root.error)
    else
      GoPath.JoinWithName(root.value, ConfigFileName);
      GoPath.JoinValue(root.value, ConfigFileName);
      Success(GoPath.Join(root.value, ConfigFileName))
  }

  /** What the exec system call did: replaced the process, or returned (with or without an error). */
  datatype ExecResult = Replaced | Returned(err: Option<string>)

  /**
   * How a run of the shim ends: the process was replaced by runc with the given argv
   * (after writing `written` back to config.json, if anything), or run returned an error.
   */
  datatype Outcome = Exec(binary: string, argv: seq<string>, written: Option<SpecValue>) | Fail(msg: string)

  const RuncCandidates := ["docker-runc", "runc"]

  /** The runc binary execRunc would exec: the first candidate exec.LookPath finds. */
  method LocateRunc(found: string -> Option<string>) returns (r: Result<string, string>)
    ensures found("docker-runc").Some? ==> r == Success(found("docker-runc").value)
    ensures found("docker-runc").None? && found("runc").Some? ==> r == Success(found("runc").value)
    ensures r.Failure? <==> found("docker-runc").None? && found("runc").None?
  {
    var err := Some("");
    var runcPath := "";
    var i := 0;
    while i < |RuncCandidates| && err.Some?
      invariant i <= |RuncCandidates|
      invariant err.None? ==>
        (0 < i && found(RuncCandidates[i - 1]).Some? &&
         runcPath == found(RuncCandidates[i - 1]).value &&
         forall k :: 0 <= k < i - 1 ==> found(RuncCandidates[k]).None?)
      invariant err.Some? ==> forall k :: 0 <= k < i ==> found(RuncCandidates[k]).None?
      invariant err.Some? && i > 0 ==>
        err.value == "exec: \"" + RuncCandidates[i - 1] + "\": executable file not found in $PATH"
    {
      var candidate := RuncCandidates[i];
      var dir := found(candidate);
      if dir.Some? {
        runcPath, err := dir.value, None;
      } else {
        runcPath, err := "", Some("exec: \"" + candidate + "\": executable file not found in $PATH");
      }
      i := i + 1;
    }
    if err.Some? {
      return Failure("error locating runc: " + err.value);
    }
    assert RuncCandidates[0] == "docker-runc" && RuncCandidates[1] == "runc";
    assert i == 1 || i == 2;
    return Success(runcPath);
  }

  /** The runc binary LookPath finds first: docker-runc, else runc, else none. */
  function RuncBinary(found: string -> Option<string>): Option<string>
  {
    if found("docker-runc").Some? then found("docker-runc") else found("runc")
  }

  /** execRunc: exec runc with the shim's own arguments; any return from it is an error. */
  method ExecRunc(found: string -> Option<string>, argv: seq<string>, exec: ExecResult, written: Option<SpecValue>)
    returns (outcome: Outcome)
    requires |argv| >= 1
    ensures outcome.Exec? <==> exec == Replaced && RuncBinary(found).Some?
    ensures outcome.Exec? ==>
      (outcome.binary == RuncBinary(found).value && outcome.written == written && outcome.argv == [outcome.binary] + argv[1..])
  {
    var located := LocateRunc(found);
    if located.Failure? {
      return Fail(located.error);
    }
    var runcPath := located.value;
    match exec {
      case Replaced => return Exec(runcPath, [runcPath] + argv[1..], written);
      case Returned(Some(e)) => return Fail("could not exec '" + runcPath + "': " + e);
      case Returned(None) => return Fail("unexpected return from exec '" + runcPath + "'");
    }
  }

  /** The answers of the outside world that one run of the shim depends on. */
  datatype World = World(
    setupError: Option<string>,                  // loading the TOML config or opening the log
    getwd: Result<string, string>,
    load: string -> Result<SpecValue, string>,   // open, read and unmarshal config.json at a path
    hookFound: Option<string>,                   // PATH directory holding the hook binary
    hookDefaultStat: Option<string>,             // os.Stat error for the default hook path
    writeError: Option<string>,
    runcFound: string -> Option<string>,       // exec.LookPath of each runc candidate
    exec: ExecResult)

  /**
   * When run ends in runc: setup and argument parsing succeed, runc is found and the exec
   * replaces the process; for `create`, config.json must also be located, loaded, given the
   * hook and written back first.
   */
  predicate Forwards(argv: seq<string>, w: World)
  {
    w.setupError.None? && ParseArgs(argv, NoArgs).Success? &&
    RuncBinary(w.runcFound).Some? && w.exec == Replaced &&
    (ParseArgs(argv, NoArgs).value.cmd == "create" ==>
      var path := ConfigFilePath(ParseArgs(argv, NoArgs).value.bundleDirPath, w.getwd);
      path.Success? && w.load(path.value).Success? &&
      ResolveHookPath(w.hookFound, w.hookDefaultStat).Success? && w.writeError.None?)
  }

  /**
   * run: a non-create command goes straight to runc without the spec being read;
   * `create` rewrites config.json with the hook injected, then execs runc.
   */
  method Run(argv: seq<string>, w: World) returns (outcome: Outcome)
    requires |argv| >= 1
    ensures w.setupError.Some? ==> outcome == Fail(w.setupError.value)
    ensures w.setupError.None? && ParseArgs(argv, NoArgs).Failure? ==>
      outcome == Fail("error getting processing command line arguments: " + NeedsArgument)
    ensures w.setupError.None? && ParseArgs(argv, NoArgs).Success? && ParseArgs(argv, NoArgs).value.cmd != "create" ==>
      outcome.Fail? || outcome == Exec(outcome.binary, [outcome.binary] + argv[1..], None)
    ensures outcome.Exec? && outcome.written.Some? ==>
      ParseArgs(argv, NoArgs).Success? && ParseArgs(argv, NoArgs).value.cmd == "create"
    ensures outcome.Exec? && outcome.written.Some? ==>
      var args := ParseArgs(argv, NoArgs).value;
      var path := ConfigFilePath(args.bundleDirPath, w.getwd);
      var hookPath := ResolveHookPath(w.hookFound, w.hookDefaultStat);
      path.Success? && w.load(path.value).Success? && hookPath.Success? &&
      outcome.written.value == SpecValue(Some(InjectHook(w.load(path.value).value.hooks, hookPath.value)),
                                         w.load(path.value).value.rest)
    ensures w.setupError.None? && ParseArgs(argv, NoArgs).Success? && ParseArgs(argv, NoArgs).value.cmd == "create" ==>
      outcome.Fail? || outcome.written.Some?
    ensures outcome.Exec? <==> Forwards(argv, w)
    ensures outcome.Exec? ==> outcome.binary == RuncBinary(w.runcFound).value && outcome.argv == [outcome.binary] + argv[1..]
  {
    if w.setupError.Some? {
      return Fail(w.setupError.value);
    }
    var parsed := GetArgs(argv);
    if parsed.Failure? {
      return Fail("error getting processing command line arguments: " + parsed.error);
    }
    var args := parsed.value;
    if args.cmd != "create" {
      var forwarded := ExecRunc(w.runcFound, argv, w.exec, None);
      if forwarded.Fail? {
        return Fail("error forwarding command to runc: " + forwarded.msg);
      }
      return forwarded;
    }
    var configFilePath := ConfigFilePath(args.bundleDirPath, w.getwd);
    if configFilePath.Failure? {
      return Fail("error getting config file path: " + configFilePath.error);
    }
    var loaded := w.load(configFilePath.value);
    if loaded.Failure? {
      return Fail(loaded.error);
    }
    var spec := new Spec(loaded.value);
    var err := AddNvidiaHook(spec, w.hookFound, w.hookDefaultStat);
    if err.Some? {
      return Fail("error injecting NVIDIA Container Runtime hook: " + err.value);
    }
    if w.writeError.Some? {
      return Fail("error writing modifed OCI specification to file: " + w.writeError.value);
    }
    var forwarded := ExecRunc(w.runcFound, argv, w.exec, Some(spec.Value()));
    if forwarded.Fail? {
      return Fail("error forwarding 'create' command to runc: " + forwarded.msg);
    }
    return forwarded;
  }
}
