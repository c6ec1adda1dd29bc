/**
 * The command-line front end of the older nvidia-container-cli (src/nvc_cli.c): the argp
 * parsers of the `list` and `configure` commands filling the context, and the requirement
 * loop of `configure`, which evaluates every --require expression against the driver's
 * CUDA and kernel module versions before any device is selected. Device selection
 * (select_gpu_devices) is the code of select_devices and is modelled in DeviceSelect.
 */
module NvcCli {
  import opened Wrappers
  import Utils
  import ErrorGeneric
  import Dsl
  import LegacyDsl
  import opened CliContext

  /** nitems(ctx->reqs). */
  const MaxRequirements: nat := 16

  /** What the parsers ask of the system: realpath(3), getppid(2) and strerror(3). */
  datatype Host = Host(realpath: string -> Option<string>, ppid: int, strerror: int -> string)

  /** is_root_dir: the path resolves to "/". */
  predicate IsRootDir(path: string, host: Host)
  {
    host.realpath(path) == Some("/")
  }

  /** The 'p' option: strtopid into ctx->pid, or its error message. */
  function PidOption(st: State, arg: string, host: Host): (Reply, State)
  {
    match Utils.StrToPid(arg)
    case Success(n) => (Handled, st.(pid := n))
    case Failure((text, errno)) => (Fatal(ErrorGeneric.Compose(text, Some(host.strerror(errno)))), st)
  }

  /** compute, utility, video and graphics go into the driver flags and the device flags. */
  function Capability(st: State, word: string): State
  {
    Join(Join(st, DriverFlags, word), DeviceFlags, word)
  }

  /** The capability word of an option key, if it is one. */
  function CapabilityWord(key: Key): Option<string>
  {
    match key
    case Compute => Some("compute")
    case Utility => Some("utility")
    case Video => Some("video")
    case Graphics => Some("graphics")
    case _ => None
  }

  /** list_parser: one call, with the context before and after. */
  function ListStep(st: State, key: Key, arg: string): (Reply, State)
  {
    match key
    case Info => (Handled, st.(listInfo := true))
    case Device => (Handled, st.(devices := Some(Utils.StrJoin(st.devices, arg, ","))))
    case Compute => (Handled, Capability(st, "compute"))
    case Utility => (Handled, Capability(st, "utility"))
    case Video => (Handled, Capability(st, "video"))
    case Graphics => (Handled, Capability(st, "graphics"))
    case Compat32 => (Handled, Join(st, DriverFlags, "compat32"))
    case _ => (Unknown, st)
  }

  /** configure_parser: one call, with argp's arg_num, and the context before and after. */
  function ConfigureStep(st: State, key: Key, arg: string, argNum: nat, host: Host): (Reply, State)
  {
    match key
    case Pid => PidOption(st, arg, host)
    case Device => (Handled, st.(devices := Some(Utils.StrJoin(st.devices, arg, ","))))
    case Require => Stored(st, MaxRequirements, arg)
    case Ldconfig => (Handled, st.(ldconfig := Some(arg)))
    case Compute => (Handled, Capability(st, "compute"))
    case Utility => (Handled, Capability(st, "utility"))
    case Video => (Handled, Capability(st, "video"))
    case Graphics => (Handled, Capability(st, "graphics"))
    case Compat32 => (Handled, Join(st, DriverFlags, "compat32"))
    case NoCgroups => (Handled, Join(st, ContainerFlags, "no-cgroups"))
    case NoDevbind => (Handled, Join(st, ContainerFlags, "no-devbind"))
    case KeyArg =>
      if argNum > 0 then (Usage, st)
      else if IsRootDir(arg, host) then (Fatal("invalid rootfs directory"), st)
      else (Handled, st.(rootfs := Some(arg)))
    case KeySuccess =>
      if st.pid > 0 then (Handled, Join(st, ContainerFlags, "supervised"))
      else (Handled, Join(st.(pid := host.ppid), ContainerFlags, "standalone"))
    case KeyEnd => if argNum < 1 then (Usage, st) else (Handled, st)
    case _ => (Unknown, st)
  }

  /**
   * Where the flag options go: a capability into the driver and device flags, compat32 into
   * the driver flags only, no-cgroups and no-devbind into the container flags only; the
   * rest of the context stays as it was.
   */
  lemma FlagRouting(st: State, key: Key, arg: string, argNum: nat, host: Host)
    ensures var (reply, next) := ConfigureStep(st, key, arg, argNum, host);
      && (CapabilityWord(key).Some? ==>
            var w := CapabilityWord(key).value;
            reply == Handled && next.driverFlags == Some(Utils.StrJoin(st.driverFlags, w, " ")) &&
            next.deviceFlags == Some(Utils.StrJoin(st.deviceFlags, w, " ")) &&
            next.containerFlags == st.containerFlags && next.initFlags == st.initFlags && Rest(next) == Rest(st))
      && (key == Compat32 ==>
            reply == Handled && next.driverFlags == Some(Utils.StrJoin(st.driverFlags, "compat32", " ")) &&
            next.deviceFlags == st.deviceFlags && next.containerFlags == st.containerFlags && Rest(next) == Rest(st))
      && (key in {NoCgroups, NoDevbind} ==>
            var w := if key == NoCgroups then "no-cgroups" else "no-devbind";
            reply == Handled && next.containerFlags == Some(Utils.StrJoin(st.containerFlags, w, " ")) &&
            next.driverFlags == st.driverFlags && next.deviceFlags == st.deviceFlags && Rest(next) == Rest(st))
  {
  }

  /**
   * ARGP_KEY_SUCCESS: a positive pid is kept and marks the container supervised; otherwise
   * the parent's pid is taken and the container is standalone.
   */
  lemma PidRule(st: State, arg: string, argNum: nat, host: Host)
    ensures var (reply, next) := ConfigureStep(st, KeySuccess, arg, argNum, host);
      reply == Handled &&
      (st.pid > 0 ==> next.pid == st.pid && next.containerFlags == Some(Utils.StrJoin(st.containerFlags, "supervised", " "))) &&
      (st.pid <= 0 ==> next.pid == host.ppid && next.containerFlags == Some(Utils.StrJoin(st.containerFlags, "standalone", " ")))
  {
  }

  /** The first positional argument becomes the rootfs unless it resolves to "/". */
  lemma RootfsRule(st: State, arg: string, host: Host)
    ensures var (reply, next) := ConfigureStep(st, KeyArg, arg, 0, host);
      (reply == Handled <==> !IsRootDir(arg, host)) &&
      (reply == Handled ==> next == st.(rootfs := Some(arg))) &&
      (reply != Handled ==> reply == Fatal("invalid rootfs directory"))
  {
  }

  /** configure_parser with its host, as argp calls it. */
  function ConfigureWith(host: Host): Step
  {
    (st: State, key: Key, arg: string, argNum: nat) => ConfigureStep(st, key, arg, argNum, host)
  }

  /** A second positional argument, and none at all by the end, both stop with usage. */
  lemma ConfigureGuardsPositionals(host: Host)
    ensures GuardsPositionals(ConfigureWith(host))
  {
  }

  /** A configure command line that parses has exactly one ROOTFS before the end. */
  lemma ConfigureOneRootfs(host: Host, st: State, events: seq<Event>, end: string, after: seq<Event>)
    requires Run(ConfigureWith(host), st, events + [Event(KeyEnd, end)] + after, 0).0 == Handled
    ensures Positionals(events) == 1
  {
    ConfigureGuardsPositionals(host);
    ExactlyOnePositional(ConfigureWith(host), st, events, end, after);
  }

  /** The number of --require options among the events. */
  function Requirements(events: seq<Event>): nat
  {
    if events == [] then 0
    else (if events[0].key == Require then 1 else 0) + Requirements(events[1..])
  }

  /**
   * Each --require that goes through adds one expression, in order, and nothing else does;
   * a walk that goes through has stored at most 16, so a 17th one stops it with
   * "too many requirements".
   */
  lemma {:induction false} RequirementsCounted(host: Host, st: State, events: seq<Event>, argNum: nat)
    requires |st.reqs| <= MaxRequirements
    ensures var (reply, next) := Run(ConfigureWith(host), st, events, argNum);
      reply == Handled ==>
        |next.reqs| == |st.reqs| + Requirements(events) <= MaxRequirements && st.reqs <= next.reqs
    decreases |events|
  {
    if events != [] {
      var e := events[0];
      var (reply, next) := ConfigureStep(st, e.key, e.arg, argNum, host);
      if reply == Handled {
        assert |next.reqs| == |st.reqs| + (if e.key == Require then 1 else 0) <= MaxRequirements by {
          if e.key == Require {
            StoredBounded(st, MaxRequirements, e.arg);
          }
        }
        RequirementsCounted(host, next, events[1..], if e.key == KeyArg then argNum + 1 else argNum);
      }
    }
  }

  /** configure_parser: switches on the key and fills the context in place. */
  method ConfigureParser(ctx: Context, key: Key, arg: string, argNum: nat, host: Host) returns (reply: Reply)
    requires ctx.Valid() && ctx.reqs.Length == MaxRequirements
    modifies ctx, ctx.reqs
    ensures ctx.Valid() && (reply, ctx.Value()) == ConfigureStep(old(ctx.Value()), key, arg, argNum, host)
  {
    reply := Handled;
    match key
    case Pid =>
      match Utils.StrToPid(arg) {
        case Success(n) =>
          ctx.pid := n;
        case Failure((text, errno)) =>
          reply := Fatal(ErrorGeneric.Compose(text, Some(host.strerror(errno))));
      }
    case Device =>
      ctx.devices := Some(Utils.StrJoin(ctx.devices, arg, ","));
    case Require =>
      reply := ctx.AddRequirement(arg);
    case Ldconfig =>
      ctx.ldconfig := Some(arg);
    case Compute =>
      ctx.JoinFlag(DriverFlags, "compute");
      ctx.JoinFlag(DeviceFlags, "compute");
    case Utility =>
      ctx.JoinFlag(DriverFlags, "utility");
      ctx.JoinFlag(DeviceFlags, "utility");
    case Video =>
      ctx.JoinFlag(DriverFlags, "video");
      ctx.JoinFlag(DeviceFlags, "video");
    case Graphics =>
      ctx.JoinFlag(DriverFlags, "graphics");
      ctx.JoinFlag(DeviceFlags, "graphics");
    case Compat32 =>
      ctx.JoinFlag(DriverFlags, "compat32");
    case NoCgroups =>
      ctx.JoinFlag(ContainerFlags, "no-cgroups");
    case NoDevbind =>
      ctx.JoinFlag(ContainerFlags, "no-devbind");
    case KeyArg =>
      if argNum > 0 {
        reply := Usage;
      } else if host.realpath(arg) == Some("/") {
        reply := Fatal("invalid rootfs directory");
      } else {
        ctx.rootfs := Some(arg);
      }
    case KeySuccess =>
      if ctx.pid > 0 {
        ctx.JoinFlag(ContainerFlags, "supervised");
      } else {
        ctx.pid := host.ppid;
        ctx.JoinFlag(ContainerFlags, "standalone");
      }
    case KeyEnd =>
      if argNum < 1 {
        reply := Usage;
      }
    case _ =>
      reply := Unknown;
  }

  /** list_parser: switches on the key and fills the context in place. */
  method ListParser(ctx: Context, key: Key, arg: string) returns (reply: Reply)
    requires ctx.Valid()
    modifies ctx
    ensures ctx.Valid() && (reply, ctx.Value()) == ListStep(old(ctx.Value()), key, arg)
  {
    reply := Handled;
    match key
    case Info =>
      ctx.listInfo := true;
    case Device =>
      ctx.devices := Some(Utils.StrJoin(ctx.devices, arg, ","));
    case Compute =>
      ctx.JoinFlag(DriverFlags, "compute");
      ctx.JoinFlag(DeviceFlags, "compute");
    case Utility =>
      ctx.JoinFlag(DriverFlags, "utility");
      ctx.JoinFlag(DeviceFlags, "utility");
    case Video =>
      ctx.JoinFlag(DriverFlags, "video");
      ctx.JoinFlag(DeviceFlags, "video");
    case Graphics =>
      ctx.JoinFlag(DriverFlags, "graphics");
      ctx.JoinFlag(DeviceFlags, "graphics");
    case Compat32 =>
      ctx.JoinFlag(DriverFlags, "compat32");
    case _ =>
      reply := Unknown;
  }

  /** list takes no positional argument and leaves the requirements and the rootfs alone. */
  lemma ListKeepsConfigure(st: State, key: Key, arg: string)
    ensures var (reply, next) := ListStep(st, key, arg);
      (key in {KeyArg, KeyEnd, KeySuccess, Require, Pid} ==> reply == Unknown) &&
      next.reqs == st.reqs && next.rootfs == st.rootfs && next.pid == st.pid &&
      next.containerFlags == st.containerFlags
  {
  }

  /** The rules of this front end: check_cuda_version and check_driver_version. */
  function Rules(cudaVersion: string, nvrmVersion: string): seq<Dsl.Rule>
  {
    [Dsl.Rule("cuda", (cmp, v) => Dsl.CompareVersion(cudaVersion, cmp, v)),
     Dsl.Rule("driver", (cmp, v) => Dsl.CompareVersion(nvrmVersion, cmp, v))]
  }

  /** "cuda" compares the driver's CUDA version and "driver" its kernel module version. */
  lemma RulesCompare(cudaVersion: string, nvrmVersion: string, cmp: Dsl.Comparator, v: string)
    ensures var rules := Rules(cudaVersion, nvrmVersion);
      LegacyDsl.RuleIndex(rules, "cuda") == 0 && LegacyDsl.RuleIndex(rules, "driver") == 1 &&
      rules[0].check(cmp, v) == Dsl.CompareVersion(cudaVersion, cmp, v) &&
      rules[1].check(cmp, v) == Dsl.CompareVersion(nvrmVersion, cmp, v)
  {
  }

  /** What the requirement loop reports: the first failing expression's message, or None. */
  function RequirementsCheck(reqs: seq<string>, cudaVersion: string, nvrmVersion: string): Option<string>
  {
    FirstFailure(reqs, pred => LegacyDsl.Evaluation(pred, Rules(cudaVersion, nvrmVersion)))
  }

  /**
   * The requirement loop of configure_command: dsl_evaluate on each stored expression in
   * order; the first failure ends the command with its message.
   */
  method CheckRequirements(ctx: Context, cudaVersion: string, nvrmVersion: string) returns (failure: Option<string>)
    requires ctx.Valid()
    ensures failure == RequirementsCheck(ctx.Value().reqs, cudaVersion, nvrmVersion)
  {
    var rules := Rules(cudaVersion, nvrmVersion);
    ghost var eval := pred => LegacyDsl.Evaluation(pred, rules);
    ghost var reqs := ctx.reqs[..ctx.nreqs];
    for i := 0 to ctx.nreqs
      invariant FirstFailure(reqs[i..], eval) == FirstFailure(reqs, eval)
    {
      assert reqs[i..][1..] == reqs[i + 1..];
      var o := LegacyDsl.DslEvaluate(ctx.reqs[i], rules);
      if !o.Satisfied? {
        return Dsl.Message(o);
      }
    }
    failure := None;
  }
}
