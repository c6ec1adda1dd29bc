/**
 * The older runtime shim of runtime/src/main.go: exact `--bundle`/`-b` tokens, a hook
 * injection without a duplicate check, and `bundle + "/config.json"` as the spec file.
 * Failures go through log.Fatalf, which ends the process with status 1.
 */
module LegacyShim {
  import opened Wrappers
  import opened OciSpec
  import Text
  import GoPath

  const HookDefaultFilePath := "/usr/bin/nvidia-container-runtime-hook"
  const NeedsArgument := "bundle option needs an argument"

  datatype Args = Args(bundleDirPath: string, cmd: string)

  const NoArgs := Args("", "")

  predicate IsBundleFlag(param: string) { param == "--bundle" || param == "-b" }

  /** What the loop body does with os.Args[i]; the value after a flag is read but not skipped. */
  function Step(argv: seq<string>, i: nat, a: Args): Result<Args, string>
    requires i < |argv|
  {
    if IsBundleFlag(argv[i]) then
      if |argv| - i <= 1 then Failure(NeedsArgument) else Success(a.(bundleDirPath := argv[i + 1]))
    else if argv[i] == "create" then Success(a.(cmd := "create"))
    else Success(a)
  }

  /** The state of getArgs after the loop has visited the first n tokens. */
  function Visited(argv: seq<string>, n: nat): Result<Args, string>
    requires n <= |argv|
  {
    if n == 0 then Success(NoArgs)
    else match Visited(argv, n - 1)
      case Failure(e) => Failure(e)
      case Success(a) => Step(argv, n - 1, a)
  }

  /** getArgs: a range loop over os.Args, program name included. */
  method GetArgs(argv: seq<string>) returns (r: Result<Args, string>)
    ensures r == Visited(argv, |argv|)
  {
    var args := NoArgs;
    for i := 0 to |argv|
      invariant Visited(argv, i) == Success(args)
    {
      var param := argv[i];
      if param == "--bundle" || param == "-b" {
        if |argv| - i <= 1 {
          return Failure(NeedsArgument);
        }
        args := args.(bundleDirPath := argv[i + 1]);
      } else if param == "create" {
        args := args.(cmd := param);
      }
    }
    return Success(args);
  }

  /** Only a flag in the last position can fail, so parsing fails exactly when argv ends in a flag. */
  lemma {:induction false} VisitedFails(argv: seq<string>, n: nat)
    requires n <= |argv|
    ensures Visited(argv, n).Failure? <==> n == |argv| && n > 0 && IsBundleFlag(argv[n - 1])
    ensures Visited(argv, n).Failure? ==> Visited(argv, n).error == NeedsArgument
  {
    if n > 0 {
      VisitedFails(argv, n - 1);
    }
  }

  /** The command is `create` exactly when the word occurs anywhere, even as a flag's value. */
  lemma {:induction false} VisitedCmd(argv: seq<string>, n: nat)
    requires n <= |argv| && Visited(argv, n).Success?
    ensures Visited(argv, n).value.cmd == "create" <==> "create" in argv[..n]
    ensures Visited(argv, n).value.cmd == "" || Visited(argv, n).value.cmd == "create"
  {
    if n > 0 {
      VisitedFails(argv, n - 1);
      VisitedCmd(argv, n - 1);
      assert argv[..n] == argv[..n - 1] + [argv[n - 1]];
    }
  }

  /** Position j holds the last bundle flag among the first n tokens. */
  predicate LastFlagAt(argv: seq<string>, j: nat, n: nat)
    requires j < n <= |argv|
  {
    IsBundleFlag(argv[j]) && forall k :: j < k < n ==> !IsBundleFlag(argv[k])
  }

  /** The bundle path is the token after the last flag, or "" when there is no flag. */
  lemma {:induction false} VisitedBundle(argv: seq<string>, n: nat)
    requires n <= |argv| && Visited(argv, n).Success?
    ensures (forall k :: 0 <= k < n ==> !IsBundleFlag(argv[k])) ==> Visited(argv, n).value.bundleDirPath == ""
    ensures forall j :: 0 <= j < n && LastFlagAt(argv, j, n) ==>
      j + 1 < |argv| && Visited(argv, n).value.bundleDirPath == argv[j + 1]
  {
    if n > 0 {
      VisitedFails(argv, n - 1);
      VisitedBundle(argv, n - 1);
      VisitedFails(argv, n);
      forall j | 0 <= j < n && LastFlagAt(argv, j, n)
        ensures j + 1 < |argv| && Visited(argv, n).value.bundleDirPath == argv[j + 1]
      {
        if j < n - 1 {
          assert !IsBundleFlag(argv[n - 1]);
          assert LastFlagAt(argv, j, n - 1);
        }
      }
    }
  }

  /** exec.LookPath's path result: the joined path when found, the empty string with its error otherwise. */
  function LookPathResult(found: Option<string>): string
  {
    if found.Some? then GoPath.Join(found.value, HookName) else ""
  }

  /** The hooks after the unconditional append. */
  function AppendHook(hooks: Option<Hooks>, path: string): Hooks
  {
    var h := if hooks.Some? then hooks.value else Hooks([], [], []);
    h.(prestart := h.prestart + [PrestartHook(path)])
  }

  /**
   * addNVIDIAHook as written: the fallback branch declares a new `path` that only the
   * os.Stat call sees, so the appended hook carries exec.LookPath's own result.
   */
  method AddNvidiaHook(spec: Spec, found: Option<string>, defaultStat: Option<string>)
    returns (err: Option<string>)
    modifies spec
    ensures found.None? && defaultStat.Some? ==> err == defaultStat && spec.Value() == old(spec.Value())
    ensures found.Some? || defaultStat.None? ==>
      err == None && spec.Value() == SpecValue(Some(AppendHook(old(spec.hooks), LookPathResult(found))), old(spec.rest))
  {
    var path := LookPathResult(found);
    if found.None? {
      var path := HookDefaultFilePath;
      if defaultStat.Some? {
        return defaultStat;
      }
    }
    if spec.hooks.None? {
      spec.hooks := Some(Hooks([], [], []));
    }
    var h := spec.hooks.value;
    spec.hooks := Some(h.(prestart := h.prestart + [PrestartHook(path)]));
    return None;
  }

  /** When the hook is only found at the default path, the hook added names no binary at all. */
  lemma ShadowedHookPath(hooks: Option<Hooks>)
    ensures var r := AppendHook(hooks, LookPathResult(None));
      r.prestart[|r.prestart| - 1] == Hook("", ["", "prestart"])
  {
  }

  /** Existing prestart hooks keep their order, one hook follows them, and the other lists are kept. */
  lemma AppendKeepsExisting(hooks: Hooks, path: string)
    ensures var r := AppendHook(Some(hooks), path);
      r.prestart == hooks.prestart + [PrestartHook(path)] &&
      r.poststart == hooks.poststart && r.poststop == hooks.poststop
  {
  }

  lemma {:induction false} CountSnoc(hooks: seq<Hook>, h: Hook)
    ensures NvidiaHookCount(hooks + [h]) == NvidiaHookCount(hooks) + (if IsNvidiaHook(h) then 1 else 0)
  {
    assert (hooks + [h])[..|hooks|] == hooks;
  }

  /**
   * Every injection adds another NVIDIA hook: injecting into a spec that already has
   * one leaves two, so "exactly one hook" does not survive a second run.
   */
  lemma RepeatedInjection(hooks: Option<Hooks>, path: string)
    requires Text.Contains(path, HookName)
    ensures var once := AppendHook(hooks, path);
      NvidiaHookCount(once.prestart) == NvidiaHookCount(if hooks.Some? then hooks.value.prestart else []) + 1 &&
      NvidiaHookCount(AppendHook(Some(once), path).prestart) == NvidiaHookCount(once.prestart) + 1
  {
    var h := if hooks.Some? then hooks.value else Hooks([], [], []);
    CountSnoc(h.prestart, PrestartHook(path));
    CountSnoc(h.prestart + [PrestartHook(path)], PrestartHook(path));
  }

  /** main: the spec file is the bundle directory (or the working directory) and "/config.json". */
  function SpecFilePath(bundleDirPath: string, getwd: Result<string, string>): (r: Result<string, string>)
    ensures bundleDirPath != "" ==> r == Success(bundleDirPath + "/config.json")
    ensures bundleDirPath == "" ==> r == if getwd.Success? then Success(getwd.value + "/config.json") else Failure(getwd.error)
  {
    var dir := if bundleDirPath == "" then getwd else Success(bundleDirPath);
    if dir.Failure? then Failure(dir.error) else Success(dir.value + "/config.json")
  }

  datatype ExecResult = Replaced | Returned(err: Option<string>)

  /** How the process ends: replaced by runc, or an exit status. */
  datatype Outcome = Exec(binary: string, argv: seq<string>, written: Option<SpecValue>) | Exit(status: int)

  datatype World = World(
    setupError: Option<string>,                  // reading the TOML config or opening the log
    getwd: Result<string, string>,
    load: string -> Result<SpecValue, string>,   // open, read and unmarshal the spec file
    hookFound: Option<string>,                   // PATH directory holding the hook binary
    hookDefaultStat: Option<string>,
    writeError: Option<string>,
    runcFound: Option<string>,                   // exec.LookPath("runc")
    exec: ExecResult)

  /**
   * execRunc: any failure is fatal (status 1); an exec that returns without an error
   * returns to the caller.
   */
  function ExecRunc(w: World, argv: seq<string>, written: Option<SpecValue>): Option<Outcome>
    requires |argv| >= 1
  {
    if w.runcFound.None? then Some(Exit(1))
    else match w.exec
      case Replaced => Some(Exec(w.runcFound.value, [w.runcFound.value] + argv[1..], written))
      case Returned(Some(_)) => Some(Exit(1))
      case Returned(None) => None
  }

  /**
   * When main ends in runc: the setup and the arguments succeed, runc is found and the
   * exec replaces the process, and on "create" the spec file is loaded, the hook is
   * located and the spec is written back first.
   */
  predicate LegacyForwards(argv: seq<string>, w: World)
  {
    w.setupError.None? && Visited(argv, |argv|).Success? && w.runcFound.Some? && w.exec == Replaced &&
    (Visited(argv, |argv|).value.cmd == "create" ==>
      var path := SpecFilePath(Visited(argv, |argv|).value.bundleDirPath, w.getwd);
      path.Success? && w.load(path.value).Success? &&
      (w.hookFound.Some? || w.hookDefaultStat.None?) && w.writeError.None?)
  }

  /** main of the older shim. */
  method ShimMain(argv: seq<string>, w: World) returns (outcome: Outcome)
    requires |argv| >= 1
    ensures outcome.Exit? ==> outcome.status == 0 || outcome.status == 1
    ensures w.setupError.None? && Visited(argv, |argv|).Success? && Visited(argv, |argv|).value.cmd != "create" ==>
      outcome == Exit(1) || (w.runcFound.Some? && outcome == Exec(w.runcFound.value, [w.runcFound.value] + argv[1..], None))
    ensures outcome.Exec? && outcome.written.Some? ==>
      Visited(argv, |argv|).Success? &&
      var args := Visited(argv, |argv|).value;
      var path := SpecFilePath(args.bundleDirPath, w.getwd);
      args.cmd == "create" && path.Success? && w.load(path.value).Success? &&
      outcome.written.value == SpecValue(Some(AppendHook(w.load(path.value).value.hooks, LookPathResult(w.hookFound))),
                                         w.load(path.value).value.rest)
    ensures outcome == Exit(0) <==>
      w.setupError.None? && Visited(argv, |argv|).Success? && Visited(argv, |argv|).value.cmd == "create" &&
      w.runcFound.Some? && w.exec == Returned(None) &&
      SpecFilePath(Visited(argv, |argv|).value.bundleDirPath, w.getwd).Success? &&
      w.load(SpecFilePath(Visited(argv, |argv|).value.bundleDirPath, w.getwd).value).Success? &&
      (w.hookFound.Some? || w.hookDefaultStat.None?) && w.writeError.None?
    ensures outcome.Exec? <==> LegacyForwards(argv, w)
    ensures outcome.Exec? ==> outcome.binary == w.runcFound.value && outcome.argv == [outcome.binary] + argv[1..]
  {
    if w.setupError.Some? {
      return Exit(1);
    }
    var parsed := GetArgs(argv);
    if parsed.Failure? {
      return Exit(1);
    }
    var args := parsed.value;
    if args.cmd != "create" {
      var forwarded := ExecRunc(w, argv, None);
      if forwarded.Some? {
        return forwarded.value;
      }
      return Exit(1);
    }
    var specFile := SpecFilePath(args.bundleDirPath, w.getwd);
    if specFile.Failure? {
      return Exit(1);
    }
    var loaded := w.load(specFile.value);
    if loaded.Failure? {
      return Exit(1);
    }
    var spec := new Spec(loaded.value);
    var err := AddNvidiaHook(spec, w.hookFound, w.hookDefaultStat);
    if err.Some? || w.writeError.Some? {
      return Exit(1);
    }
    var forwarded := ExecRunc(w, argv, Some(spec.Value()));
    if forwarded.Some? {
      return forwarded.value;
    }
    return Exit(0);
  }
}
