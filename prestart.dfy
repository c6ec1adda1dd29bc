/**
 * The prestart step of the NVIDIA hook: doPrestart in nvidia-container-runtime-hook/main.go
 * and in hook/nvidia-container-runtime-hook/main.go, whose bodies are the same text apart
 * from where the container state comes from and where the deferred exit sits. It builds the command line for
 * `nvidia-container-cli configure` and replaces the process with it. A Go panic is
 * modelled as a Failure, and the deferred recover turns it into exit status 1.
 */
module Prestart {
  import opened Wrappers
  import Text

  /** The nvidia-container-cli table of the hook's TOML configuration. */
  datatype CliConfig = CliConfig(
    path: string,
    environment: seq<string>,
    debug: Option<string>,
    ldcache: Option<string>,
    loadKmods: bool,
    ldconfig: Option<string>)

  datatype HookConfig = HookConfig(disableRequire: bool, cli: CliConfig)

  /** The NVIDIA settings of the container as this code reads them. */
  datatype Nvidia = Nvidia(
    devices: string, capabilities: string, requirements: seq<string>, disableRequire: bool)

  const Capabilities := ["compute", "compat32", "graphics", "utility", "video"]

  /** capabilityToCLI: a known driver capability becomes its flag; any other name panics. */
  function CapabilityToCli(cap: string): (r: Result<string, string>)
    ensures r.Success? <==> cap in Capabilities
    ensures r.Success? ==> r.value == "--" + cap
    ensures r.Failure? ==> r.error == "unknown driver capability: " + cap
  {
    match cap
    case "compute" => Success("--compute")
    case "compat32" => Success("--compat32")
    case "graphics" => Success("--graphics")
    case "utility" => Success("--utility")
    case "video" => Success("--video")
    case _ => Failure("unknown driver capability: " + cap)
  }

  /** The flag names a capability back: the table is one-to-one. */
  lemma CapabilityFlagsDistinct(a: string, b: string)
    requires CapabilityToCli(a).Success? && CapabilityToCli(b).Success?
    ensures CapabilityToCli(a) == CapabilityToCli(b) <==> a == b
  {
    if CapabilityToCli(a) == CapabilityToCli(b) {
      assert ("--" + a)[2..] == a && ("--" + b)[2..] == b;
    }
  }

  /** The flags of a comma-split capability list, stopping at its first empty element. */
  function CapFlags(parts: seq<string>): Result<seq<string>, string>
  {
    if parts == [] || parts[0] == "" then Success([])
    else
      var flag :- CapabilityToCli(parts[0]);
      var rest :- CapFlags(parts[1..]);
      Success([flag] + rest)
  }

  /**
   * On success there is one flag per element up to the first empty one (or the end),
   * each naming a known capability.
   */
  lemma {:induction false} CapFlagsMeaning(parts: seq<string>)
    requires CapFlags(parts).Success?
    ensures var flags := CapFlags(parts).value;
      |flags| <= |parts| &&
      (|flags| == |parts| || parts[|flags|] == "") &&
      "" !in parts[..|flags|] &&
      forall k :: 0 <= k < |flags| ==> parts[k] in Capabilities && flags[k] == "--" + parts[k]
  {
    if parts != [] && parts[0] != "" {
      CapFlagsMeaning(parts[1..]);
      var rest := CapFlags(parts[1..]).value;
      assert parts[..|rest| + 1] == [parts[0]] + parts[1..][..|rest|];
    }
  }

  /** Whatever follows the first empty element is never looked at. */
  lemma {:induction false} CapFlagsStopAtEmpty(parts: seq<string>, more: seq<string>)
    ensures CapFlags(parts + [""] + more) == CapFlags(parts + [""])
  {
    if parts != [] {
      assert (parts + [""] + more)[1..] == parts[1..] + [""] + more;
      assert (parts + [""])[1..] == parts[1..] + [""];
      CapFlagsStopAtEmpty(parts[1..], more);
    }
  }

  /** The capability flags fail exactly when a name before the first empty element is unknown. */
  lemma {:induction false} CapFlagsFail(parts: seq<string>)
    ensures CapFlags(parts).Failure? <==>
      exists k :: 0 <= k < |parts| && parts[k] !in Capabilities && "" !in parts[..k + 1]
  {
    if parts != [] {
      CapFlagsFail(parts[1..]);
      if parts[0] != "" && parts[0] in Capabilities && CapFlags(parts[1..]).Failure? {
        var k :| 0 <= k < |parts[1..]| && parts[1..][k] !in Capabilities && "" !in parts[1..][..k + 1];
        assert parts[..k + 2] == [parts[0]] + parts[1..][..k + 1];
      }
      forall k | 0 <= k < |parts| && parts[k] !in Capabilities && "" !in parts[..k + 1]
        ensures CapFlags(parts).Failure?
      {
        assert parts[0] in parts[..k + 1];
        if k > 0 {
          assert parts[1..][..k] == parts[1..k + 1];
          forall x | x in parts[1..][..k] ensures x in parts[..k + 1] {
            var m :| 0 <= m < k && parts[1..][..k][m] == x;
            assert parts[..k + 1][m + 1] == x;
          }
        }
      }
    }
  }

  /** Go's uint64(pid) for a 64-bit int: two's-complement reinterpretation. */
  function Uint64(pid: int): nat
  {
    pid % 0x1_0000_0000_0000_0000
  }

  function PidArg(pid: int): string
  {
    "--pid=" + Text.Decimal(Uint64(pid))
  }

  /** The digits after `--pid=` read back as the pid, or as pid + 2^64 for a negative one. */
  lemma PidArgValue(pid: int)
    requires -0x8000_0000_0000_0000 <= pid < 0x8000_0000_0000_0000
    ensures Text.AllDigits(PidArg(pid)[6..])
    ensures Text.DecimalValue(PidArg(pid)[6..]) == if pid >= 0 then pid else pid + 0x1_0000_0000_0000_0000
  {
    assert PidArg(pid)[6..] == Text.Decimal(Uint64(pid));
    Text.DecimalRoundTrip(Uint64(pid));
  }

  function Opt(present: bool, arg: string): seq<string>
  {
    if present then [arg] else []
  }

  function DebugArgs(debugFlag: bool, debug: Option<string>): seq<string>
  {
    if debugFlag then ["--debug=/dev/stderr"]
    else if debug.Some? then ["--debug=" + debug.value]
    else []
  }

  function RequireArgs(reqs: seq<string>): (r: seq<string>)
    ensures |r| == |reqs| && forall k :: 0 <= k < |reqs| ==> r[k] == "--require=" + reqs[k]
  {
    if reqs == [] then [] else RequireArgs(reqs[..|reqs| - 1]) + ["--require=" + reqs[|reqs| - 1]]
  }

  /** The arguments before the capability flags. */
  function HeadArgs(cli: CliConfig, debugFlag: bool, devices: string): seq<string>
  {
    [cli.path] + Opt(cli.loadKmods, "--load-kmods") + DebugArgs(debugFlag, cli.debug)
      + Opt(cli.ldcache.Some?, "--ldcache=" + cli.ldcache.UnwrapOr(""))
      + ["configure"]
      + Opt(cli.ldconfig.Some?, "--ldconfig=" + cli.ldconfig.UnwrapOr(""))
      + Opt(|devices| > 0, "--device=" + devices)
  }

  /**
   * The argument vector, in its fixed order: the cli path, [--load-kmods], [--debug=],
   * [--ldcache=], configure, [--ldconfig=], [--device=], the capability flags,
   * the --require= flags, --pid=N and the rootfs.
   */
  function ConfigureArgs(hook: HookConfig, debugFlag: bool, nvidia: Nvidia, pid: int, rootfs: string)
    : (r: Result<seq<string>, string>)
    ensures r.Success? <==> CapFlags(Text.Split(nvidia.capabilities, ',')).Success?
    ensures r.Success? ==>
      |r.value| >= 4 && r.value[0] == hook.cli.path &&
      r.value[|r.value| - 2] == PidArg(pid) && r.value[|r.value| - 1] == rootfs
  {
    var cli := hook.cli;
    var caps :- CapFlags(Text.Split(nvidia.capabilities, ','));
    var require := !hook.disableRequire && !nvidia.disableRequire;
    Success(HeadArgs(cli, debugFlag, nvidia.devices)
      + (caps + (RequireArgs(if require then nvidia.requirements else []) + [PidArg(pid), rootfs])))
  }

  /** The -debug flag sends the cli's debug output to stderr whatever the configuration says. */
  lemma DebugFlagOverrides(hook: HookConfig, nvidia: Nvidia, pid: int, rootfs: string, debug: Option<string>)
    ensures ConfigureArgs(hook, true, nvidia, pid, rootfs) ==
      ConfigureArgs(hook.(cli := hook.cli.(debug := debug)), true, nvidia, pid, rootfs)
  {
    assert HeadArgs(hook.cli, true, nvidia.devices) == HeadArgs(hook.cli.(debug := debug), true, nvidia.devices);
  }

  /** With -debug, --debug=/dev/stderr follows the cli path and the optional --load-kmods. */
  lemma DebugFlagPosition(hook: HookConfig, nvidia: Nvidia, pid: int, rootfs: string)
    ensures ConfigureArgs(hook, true, nvidia, pid, rootfs).Success? ==>
      ConfigureArgs(hook, true, nvidia, pid, rootfs).value[if hook.cli.loadKmods then 2 else 1] == "--debug=/dev/stderr"
  {
    var r := ConfigureArgs(hook, true, nvidia, pid, rootfs);
    if r.Success? {
      var h := HeadArgs(hook.cli, true, nvidia.devices);
      var k := if hook.cli.loadKmods then 2 else 1;
      DebugInHead(hook.cli, nvidia.devices);
      var tail := r.value[|h|..];
      assert r.value == h + tail;
      assert r.value[k] == h[k];
    }
  }

  lemma DebugInHead(cli: CliConfig, devices: string)
    ensures var h := HeadArgs(cli, true, devices);
      var k := if cli.loadKmods then 2 else 1;
      k < |h| && h[k] == "--debug=/dev/stderr"
  {
    var pre := [cli.path] + Opt(cli.loadKmods, "--load-kmods");
    var post := Opt(cli.ldcache.Some?, "--ldcache=" + cli.ldcache.UnwrapOr(""))
      + ["configure"]
      + Opt(cli.ldconfig.Some?, "--ldconfig=" + cli.ldconfig.UnwrapOr(""))
      + Opt(|devices| > 0, "--device=" + devices);
    assert HeadArgs(cli, true, devices) == pre + ["--debug=/dev/stderr"] + post;
  }

  /** Either DisableRequire setting drops every --require= flag. */
  lemma RequirementsGated(hook: HookConfig, debugFlag: bool, nvidia: Nvidia, pid: int, rootfs: string)
    requires hook.disableRequire || nvidia.disableRequire
    ensures ConfigureArgs(hook, debugFlag, nvidia, pid, rootfs) ==
      ConfigureArgs(hook, debugFlag, nvidia.(requirements := []), pid, rootfs)
  {
  }

  /** An empty device list adds no --device= flag: the vector is one shorter than with a list. */
  lemma DeviceFlagOnlyWithDevices(hook: HookConfig, debugFlag: bool, nvidia: Nvidia, pid: int, rootfs: string, devices: string)
    requires nvidia.devices == "" && devices != ""
    ensures ConfigureArgs(hook, debugFlag, nvidia, pid, rootfs).Success? ==>
      |ConfigureArgs(hook, debugFlag, nvidia.(devices := devices), pid, rootfs).value| ==
      |ConfigureArgs(hook, debugFlag, nvidia, pid, rootfs).value| + 1
  {
  }

  lemma ConfigureArgsValue(hook: HookConfig, debugFlag: bool, nvidia: Nvidia, pid: int, rootfs: string, flags: seq<string>)
    requires CapFlags(Text.Split(nvidia.capabilities, ',')) == Success(flags)
    ensures ConfigureArgs(hook, debugFlag, nvidia, pid, rootfs) ==
      Success(HeadArgs(hook.cli, debugFlag, nvidia.devices) + (flags +
        (RequireArgs(if !hook.disableRequire && !nvidia.disableRequire then nvidia.requirements else []) + [PidArg(pid), rootfs])))
  {
  }

  lemma AppendNested(a: seq<string>, b: seq<string>, c: seq<string>, d: string, e: string)
    ensures a + b + c + [d] + [e] == a + (b + (c + [d, e]))
  {
  }

  /** The capability loop of doPrestart: one flag per name, stopping at the first empty name. */
  method CapabilityArgs(parts: seq<string>) returns (r: Result<seq<string>, string>)
    ensures r == CapFlags(parts)
  {
    var args := [];
    var i := 0;
    while i < |parts| && parts[i] != ""
      invariant 0 <= i <= |parts|
      invariant CapFlags(parts).Success? ==>
        (CapFlags(parts[i..]).Success? && CapFlags(parts).value == args + CapFlags(parts[i..]).value)
      invariant CapFlags(parts).Failure? ==> CapFlags(parts[i..]) == CapFlags(parts)
    {
      var flag := CapabilityToCli(parts[i]);
      assert parts[i..][1..] == parts[i + 1..];
      if flag.Failure? {
        return Failure(flag.error);
      }
      args := args + [flag.value];
      i := i + 1;
    }
    assert CapFlags(parts[i..]) == Success([]);
    assert args + [] == args;
    return Success(args);
  }

  /** The arguments before the capability flags, built up as doPrestart appends them. */
  method BuildHeadArgs(cli: CliConfig, debugFlag: bool, devices: string) returns (args: seq<string>)
    ensures args == HeadArgs(cli, debugFlag, devices)
  {
    args := [cli.path];
    if cli.loadKmods {
      args := args + ["--load-kmods"];
    }
    assert args == [cli.path] + Opt(cli.loadKmods, "--load-kmods");
    ghost var before := args;
    if debugFlag {
      args := args + ["--debug=/dev/stderr"];
    } else if cli.debug.Some? {
      args := args + ["--debug=" + cli.debug.value];
    }
    assert args == before + DebugArgs(debugFlag, cli.debug);
    before := args;
    if cli.ldcache.Some? {
      args := args + ["--ldcache=" + cli.ldcache.value];
    }
    assert args == before + Opt(cli.ldcache.Some?, "--ldcache=" + cli.ldcache.UnwrapOr(""));
    args := args + ["configure"];
    before := args;
    if cli.ldconfig.Some? {
      args := args + ["--ldconfig=" + cli.ldconfig.value];
    }
    assert args == before + Opt(cli.ldconfig.Some?, "--ldconfig=" + cli.ldconfig.UnwrapOr(""));
    before := args;
    if |devices| > 0 {
      args := args + ["--device=" + devices];
    }
    assert args == before + Opt(|devices| > 0, "--device=" + devices);
  }

  /** The requirement loop of doPrestart: one --require flag per requirement, in order. */
  method AppendRequires(args: seq<string>, reqs: seq<string>) returns (r: seq<string>)
    ensures r == args + RequireArgs(reqs)
  {
    r := args;
    for j := 0 to |reqs|
      invariant r == args + RequireArgs(reqs[..j])
    {
      assert reqs[..j + 1][..j] == reqs[..j];
      r := r + ["--require=" + reqs[j]];
    }
    assert reqs[..|reqs|] == reqs;
  }

  /** The argument-building part of doPrestart, appending to the vector step by step. */
  method BuildConfigureArgs(hook: HookConfig, debugFlag: bool, nvidia: Nvidia, pid: int, rootfs: string)
    returns (r: Result<seq<string>, string>)
    ensures r == ConfigureArgs(hook, debugFlag, nvidia, pid, rootfs)
  {
    var args := BuildHeadArgs(hook.cli, debugFlag, nvidia.devices);
    ghost var head := args;

    var flags := CapabilityArgs(Text.Split(nvidia.capabilities, ','));
    if flags.Failure? {
      return Failure(flags.error);
    }
    args := args + flags.value;

    ghost var base := args;
    if !hook.disableRequire && !nvidia.disableRequire {
      args := AppendRequires(args, nvidia.requirements);
    }
    ghost var reqs := RequireArgs(if !hook.disableRequire && !nvidia.disableRequire then nvidia.requirements else []);
    assert args == base + reqs;
    args := args + [PidArg(pid)];
    args := args + [rootfs];
    ConfigureArgsValue(hook, debugFlag, nvidia, pid, rootfs, flags.value);
    assert base == head + flags.value;
    AppendNested(head, flags.value, reqs, PidArg(pid), rootfs);
    return Success(args);
  }

  /** The container facts doPrestart reads. */
  datatype Container = Container(pid: int, rootfs: string, nvidia: Option<Nvidia>)

  /** How the hook process ends: an exit status, or replaced by exec of the cli. */
  datatype Outcome = Exit(status: int) | Exec(path: string, argv: seq<string>, env: seq<string>)

  /**
   * What doPrestart under the deferred exit may end in: a panic while loading the
   * configurations, an unknown capability or an exec that returns all end in status 1;
   * a container without NVIDIA settings ends in status 0; otherwise the cli replaces the
   * hook, with the ambient environment followed by the configured one.
   */
  predicate PrestartOutcome(o: Outcome, debugFlag: bool, hook: Result<HookConfig, string>,
                            container: Result<Container, string>, environ: seq<string>, execFails: bool)
  {
    (o.Exit? ==> o.status == 0 || o.status == 1) &&
    (hook.Failure? || container.Failure? ==> o == Exit(1)) &&
    (hook.Success? && container.Success? && container.value.nvidia.None? ==> o == Exit(0)) &&
    (hook.Success? && container.Success? && container.value.nvidia.Some? ==>
      var args := ConfigureArgs(hook.value, debugFlag, container.value.nvidia.value,
                                container.value.pid, container.value.rootfs);
      (o.Exec? <==> args.Success? && !execFails) &&
      (o.Exit? ==> o == Exit(1)) &&
      (o.Exec? ==> o == Exec(hook.value.cli.path, args.value, environ + hook.value.cli.environment)))
  }

  /** The outcome relation leaves no freedom: it names one outcome for every input. */
  lemma PrestartOutcomeUnique(o1: Outcome, o2: Outcome, debugFlag: bool, hook: Result<HookConfig, string>,
                              container: Result<Container, string>, environ: seq<string>, execFails: bool)
    requires PrestartOutcome(o1, debugFlag, hook, container, environ, execFails)
    requires PrestartOutcome(o2, debugFlag, hook, container, environ, execFails)
    ensures o1 == o2
  {
  }

  /**
   * doPrestart, with the deferred exit of the hook. The container's settings arrive as a
   * parameter: the container_config.go this code calls into is not part of this model.
   */
  method DoPrestart(debugFlag: bool, hook: Result<HookConfig, string>, container: Result<Container, string>,
                    environ: seq<string>, execFails: bool)
    returns (o: Outcome)
    ensures PrestartOutcome(o, debugFlag, hook, container, environ, execFails)
  {
    if hook.Failure? || container.Failure? {
      return Exit(1);
    }
    var cli := hook.value.cli;
    var c := container.value;
    if c.nvidia.None? {
      return Exit(0);
    }
    var args := BuildConfigureArgs(hook.value, debugFlag, c.nvidia.value, c.pid, c.rootfs);
    if args.Failure? {
      return Exit(1);
    }
    var env := environ + cli.environment;
    if execFails {
      return Exit(1);
    }
    return Exec(cli.path, args.value, env);
  }
}
