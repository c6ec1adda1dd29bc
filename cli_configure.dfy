/**
 * The `configure` command of the newer nvidia-container-cli (src/cli/configure.c): its argp
 * parser, which sends every capability option to the container flags, and the requirement
 * check, which evaluates each --require expression once per selected GPU, or once with no
 * GPU when none is selected. The rules see the driver's CUDA and kernel module versions
 * and the GPU's architecture and brand.
 */
module CliConfigure {
  import opened Wrappers
  import Text
  import Utils
  import ErrorGeneric
  import Dsl
  import CliDsl
  import opened CliContext

  /** nitems(ctx->reqs) of src/cli/cli.h. */
  const MaxRequirements: nat := 32

  /** What the parser asks of the system: getppid(2) and strerror(3). */
  datatype Host = Host(ppid: int, strerror: int -> string)

  /** A rootfs must be an absolute path other than "/" itself. */
  predicate ValidRootfs(arg: string)
  {
    arg != "" && arg[0] == '/' && arg != "/"
  }

  /** The word each flag option joins into the container flags. */
  function FlagWord(key: Key): Option<string>
  {
    match key
    case Compute => Some("compute")
    case Utility => Some("utility")
    case Video => Some("video")
    case Graphics => Some("graphics")
    case Display => Some("display")
    case Compat32 => Some("compat32")
    case NoCgroups => Some("no-cgroups")
    case NoDevbind => Some("no-devbind")
    case _ => None
  }

  /** configure_parser: one call, with argp's arg_num, and the context before and after. */
  function ConfigureStep(st: State, key: Key, arg: string, argNum: nat, host: Host): (Reply, State)
  {
    match key
    case Pid =>
      (match Utils.StrToPid(arg)
       case Success(n) => (Handled, st.(pid := n))
       case Failure((text, errno)) => (Fatal(ErrorGeneric.Compose(text, Some(host.strerror(errno)))), st))
    case Device => (Handled, st.(devices := Some(Utils.StrJoin(st.devices, arg, ","))))
    case Require => Stored(st, MaxRequirements, arg)
    case Ldconfig => (Handled, st.(ldconfig := Some(arg)))
    case Compute => (Handled, Join(st, ContainerFlags, "compute"))
    case Utility => (Handled, Join(st, ContainerFlags, "utility"))
    case Video => (Handled, Join(st, ContainerFlags, "video"))
    case Graphics => (Handled, Join(st, ContainerFlags, "graphics"))
    case Display => (Handled, Join(st, ContainerFlags, "display"))
    case Compat32 => (Handled, Join(st, ContainerFlags, "compat32"))
    case NoCgroups => (Handled, Join(st, ContainerFlags, "no-cgroups"))
    case NoDevbind => (Handled, Join(st, ContainerFlags, "no-devbind"))
    case KeyArg =>
      if argNum > 0 then (Usage, st)
      else if !ValidRootfs(arg) then (Fatal("invalid rootfs directory"), st)
      else (Handled, st.(rootfs := Some(arg)))
    case KeySuccess =>
      if st.pid > 0 then (Handled, Join(st, ContainerFlags, "supervised"))
      else (Handled, Join(st.(pid := host.ppid), ContainerFlags, "standalone"))
    case KeyEnd => if argNum < 1 then (Usage, st) else (Handled, st)
    case _ => (Unknown, st)
  }

  /**
   * Every flag option, capabilities included, goes into the container flags only; the
   * driver and device flags and the rest of the context stay as they were.
   */
  lemma FlagsToContainer(st: State, key: Key, arg: string, argNum: nat, host: Host)
    requires FlagWord(key).Some?
    ensures ConfigureStep(st, key, arg, argNum, host) == (Handled, Join(st, ContainerFlags, FlagWord(key).value))
    ensures var next := ConfigureStep(st, key, arg, argNum, host).1;
      next.driverFlags == st.driverFlags && next.deviceFlags == st.deviceFlags && Rest(next) == Rest(st)
  {
  }

  /** The word a key joins into the container flags, as a list of none or one. */
  function KeyWords(key: Key): seq<string>
  {
    if FlagWord(key).Some? then [FlagWord(key).value] else []
  }

  /** The words the flag options among the events join into the container flags. */
  function FlagWords(events: seq<Event>): seq<string>
  {
    if events == [] then [] else KeyWords(events[0].key) + FlagWords(events[1..])
  }

  /** Before the success call, only the flag options write the container flags, each its word. */
  ghost predicate JoinsFlagWords(step: Step)
  {
    forall st: State, key: Key, arg: string, argNum: nat {:trigger step(st, key, arg, argNum)} ::
      key != KeySuccess ==>
        step(st, key, arg, argNum).1.containerFlags ==
          if FlagWord(key).Some? then Some(Utils.StrJoin(st.containerFlags, FlagWord(key).value, " "))
          else st.containerFlags
  }

  lemma ConfigureJoinsFlagWords(host: Host)
    ensures JoinsFlagWords(ConfigureWith(host))
  {
  }

  /** One call of such a step adds its key's word to the joined words. */
  lemma FlagWordJoined(step: Step, st: State, words: seq<string>, e: Event, argNum: nat)
    requires JoinsFlagWords(step)
    requires st.containerFlags == Joined(words) && e.key != KeySuccess
    ensures step(st, e.key, e.arg, argNum).1.containerFlags == Joined(words + KeyWords(e.key))
  {
    if FlagWord(e.key).Some? {
      JoinedSnoc(words, FlagWord(e.key).value);
    } else {
      assert words + KeyWords(e.key) == words;
    }
  }

  lemma NoSuccessTail(events: seq<Event>)
    requires events != [] && forall k :: 0 <= k < |events| ==> events[k].key != KeySuccess
    ensures forall k :: 0 <= k < |events[1..]| ==> events[1..][k].key != KeySuccess
  {
    forall k | 0 <= k < |events[1..]| ensures events[1..][k].key != KeySuccess {
      assert events[1..][k] == events[k + 1];
    }
  }

  lemma FlagWordsCons(words: seq<string>, events: seq<Event>)
    requires events != []
    ensures words + KeyWords(events[0].key) + FlagWords(events[1..]) == words + FlagWords(events)
  {
    var k := KeyWords(events[0].key);
    var f := FlagWords(events[1..]);
    assert FlagWords(events) == k + f;
    ConcatAssoc(words, k, f);
  }

  lemma ConcatAssoc(a: seq<string>, b: seq<string>, c: seq<string>)
    ensures a + b + c == a + (b + c)
  {
  }

  /** The walk of a step that joins the flag words, over events before the success call. */
  lemma {:induction false} FlagWordsJoined(step: Step, st: State, words: seq<string>, events: seq<Event>, argNum: nat)
    requires JoinsFlagWords(step)
    requires st.containerFlags == Joined(words)
    requires forall k :: 0 <= k < |events| ==> events[k].key != KeySuccess
    ensures var (reply, next) := Run(step, st, events, argNum);
      reply == Handled ==> next.containerFlags == Joined(words + FlagWords(events))
    decreases |events|
  {
    if events == [] {
      assert words + FlagWords(events) == words;
    } else {
      var e := events[0];
      var (reply, next) := step(st, e.key, e.arg, argNum);
      if reply == Handled {
        FlagWordJoined(step, st, words, e, argNum);
        NoSuccessTail(events);
        FlagWordsJoined(step, next, words + KeyWords(e.key), events[1..], if e.key == KeyArg then argNum + 1 else argNum);
        FlagWordsCons(words, events);
      }
    }
  }

  /**
   * Over the options and arguments of a command line (everything before argp's success
   * call), the container flags grow by the flag options' words, in order, space-separated.
   */
  lemma ContainerFlagsJoined(host: Host, st: State, words: seq<string>, events: seq<Event>, argNum: nat)
    requires st.containerFlags == Joined(words)
    requires forall k :: 0 <= k < |events| ==> events[k].key != KeySuccess
    ensures var (reply, next) := Run(ConfigureWith(host), st, events, argNum);
      reply == Handled ==> next.containerFlags == Joined(words + FlagWords(events))
  {
    ConfigureJoinsFlagWords(host);
    FlagWordsJoined(ConfigureWith(host), st, words, events, argNum);
  }

  /** The pid rule of ARGP_KEY_SUCCESS: supervised with a positive pid, else standalone under the parent. */
  lemma PidRule(st: State, arg: string, argNum: nat, host: Host)
    ensures var (reply, next) := ConfigureStep(st, KeySuccess, arg, argNum, host);
      reply == Handled &&
      (st.pid > 0 ==> next.pid == st.pid && next.containerFlags == Some(Utils.StrJoin(st.containerFlags, "supervised", " "))) &&
      (st.pid <= 0 ==> next.pid == host.ppid && next.containerFlags == Some(Utils.StrJoin(st.containerFlags, "standalone", " ")))
  {
  }

  /** The first positional argument is the rootfs exactly when it starts with '/' and is not "/". */
  lemma RootfsRule(st: State, arg: string, host: Host)
    ensures var (reply, next) := ConfigureStep(st, KeyArg, arg, 0, host);
      (reply == Handled <==> arg != "" && arg[0] == '/' && arg != "/") &&
      (reply == Handled ==> next == st.(rootfs := Some(arg))) &&
      (reply != Handled ==> reply == Fatal("invalid rootfs directory"))
  {
  }

  /** configure_parser with its host, as argp calls it. */
  function ConfigureWith(host: Host): Step
  {
    (st: State, key: Key, arg: string, argNum: nat) => ConfigureStep(st, key, arg, argNum, host)
  }

  /** A second positional argument, and none at all by the end, both stop with usage. */
  lemma ConfigureGuardsPositionals(host: Host)
    ensures GuardsPositionals(ConfigureWith(host))
  {
  }

  /** A configure command line that parses has exactly one ROOTFS before the end. */
  lemma ConfigureOneRootfs(host: Host, st: State, events: seq<Event>, end: string, after: seq<Event>)
    requires Run(ConfigureWith(host), st, events + [Event(KeyEnd, end)] + after, 0).0 == Handled
    ensures Positionals(events) == 1
  {
    ConfigureGuardsPositionals(host);
    ExactlyOnePositional(ConfigureWith(host), st, events, end, after);
  }

  /** The number of --require options among the events. */
  function Requirements(events: seq<Event>): nat
  {
    if events == [] then 0
    else (if events[0].key == Require then 1 else 0) + Requirements(events[1..])
  }

  /** A walk that goes through has stored one expression per --require, 32 at most. */
  lemma {:induction false} RequirementsCounted(host: Host, st: State, events: seq<Event>, argNum: nat)
    requires |st.reqs| <= MaxRequirements
    ensures var (reply, next) := Run(ConfigureWith(host), st, events, argNum);
      reply == Handled ==>
        |next.reqs| == |st.reqs| + Requirements(events) <= MaxRequirements && st.reqs <= next.reqs
    decreases |events|
  {
    if events != [] {
      var e := events[0];
      var (reply, next) := ConfigureStep(st, e.key, e.arg, argNum, host);
      if reply == Handled {
        assert |next.reqs| == |st.reqs| + (if e.key == Require then 1 else 0) <= MaxRequirements by {
          if e.key == Require {
            StoredBounded(st, MaxRequirements, e.arg);
          }
        }
        RequirementsCounted(host, next, events[1..], if e.key == KeyArg then argNum + 1 else argNum);
      }
    }
  }

  /** configure_parser: switches on the key and fills the context in place. */
  method ConfigureParser(ctx: Context, key: Key, arg: string, argNum: nat, host: Host) returns (reply: Reply)
    requires ctx.Valid() && ctx.reqs.Length == MaxRequirements
    modifies ctx, ctx.reqs
    ensures ctx.Valid() && (reply, ctx.Value()) == ConfigureStep(old(ctx.Value()), key, arg, argNum, host)
  {
    reply := Handled;
    match key
    case Pid =>
      match Utils.StrToPid(arg) {
        case Success(n) =>
          ctx.pid := n;
        case Failure((text, errno)) =>
          reply := Fatal(ErrorGeneric.Compose(text, Some(host.strerror(errno))));
      }
    case Device =>
      ctx.devices := Some(Utils.StrJoin(ctx.devices, arg, ","));
    case Require =>
      reply := ctx.AddRequirement(arg);
    case Ldconfig =>
      ctx.ldconfig := Some(arg);
    case Compute =>
      ctx.JoinFlag(ContainerFlags, "compute");
    case Utility =>
      ctx.JoinFlag(ContainerFlags, "utility");
    case Video =>
      ctx.JoinFlag(ContainerFlags, "video");
    case Graphics =>
      ctx.JoinFlag(ContainerFlags, "graphics");
    case Display =>
      ctx.JoinFlag(ContainerFlags, "display");
    case Compat32 =>
      ctx.JoinFlag(ContainerFlags, "compat32");
    case NoCgroups =>
      ctx.JoinFlag(ContainerFlags, "no-cgroups");
    case NoDevbind =>
      ctx.JoinFlag(ContainerFlags, "no-devbind");
    case KeyArg =>
      if argNum > 0 {
        reply := Usage;
      } else if arg == "" || arg[0] != '/' || arg == "/" {
        reply := Fatal("invalid rootfs directory");
      } else {
        ctx.rootfs := Some(arg);
      }
    case KeySuccess =>
      if ctx.pid > 0 {
        ctx.JoinFlag(ContainerFlags, "supervised");
      } else {
        ctx.pid := host.ppid;
        ctx.JoinFlag(ContainerFlags, "standalone");
      }
    case KeyEnd =>
      if argNum < 1 {
        reply := Usage;
      }
    case _ =>
      reply := Unknown;
  }

  /** What the rules read of the driver: its CUDA version and its kernel module version. */
  datatype Driver = Driver(cudaVersion: string, nvrmVersion: string)

  /** What the rules read of a GPU: its architecture and its brand. */
  datatype Gpu = Gpu(arch: string, brand: string)

  /**
   * The rules table over `struct dsl_data`: the driver, and the GPU or NULL. Without a GPU,
   * check_device_arch and check_device_brand hold whatever the term says.
   */
  function Rules(drv: Driver, dev: Option<Gpu>): seq<Dsl.Rule>
  {
    [Dsl.Rule("cuda", (cmp, v) => Dsl.CompareVersion(drv.cudaVersion, cmp, v)),
     Dsl.Rule("driver", (cmp, v) => Dsl.CompareVersion(drv.nvrmVersion, cmp, v)),
     Dsl.Rule("arch", (cmp, v) => if dev.None? then 1 else Dsl.CompareVersion(dev.value.arch, cmp, v)),
     Dsl.Rule("brand", (cmp, v) => if dev.None? then 1 else CliDsl.CompareString(dev.value.brand, cmp, v))]
  }

  /** dsl_evaluate with a rules table. */
  function Evaluator(rules: seq<Dsl.Rule>): string -> Dsl.Outcome
  {
    pred => CliDsl.Evaluation(pred, rules)
  }

  /** A term naming arch or brand, in any case, holds when no GPU is bound. */
  lemma VacuousWithoutGpu(drv: Driver, t: Dsl.Term)
    requires t.op < |Dsl.Operators| && t.value != [] && t.value[0] !in Dsl.OperatorChars
    requires forall c :: c in t.name ==> c !in Dsl.OperatorChars
    requires Text.CaseEqual(t.name, "arch") || Text.CaseEqual(t.name, "brand")
    ensures CliDsl.RuleResult(t.name + Dsl.Operators[t.op].0 + t.value, Rules(drv, None)) == Dsl.Met
  {
    var rules := Rules(drv, None);
    assert Text.LowerAll("cuda") == "cuda" && Text.LowerAll("driver") == "driver";
    assert Text.LowerAll("arch") == "arch" && Text.LowerAll("brand") == "brand";
    var lowered := Text.LowerAll(t.name);
    assert lowered == "arch" || lowered == "brand";
    assert t.name != [];
    if lowered == "arch" {
      assert lowered != "cuda" && lowered != "driver";
      CliDsl.RuleOfTerm(t, rules, 2);
    } else {
      assert lowered != "cuda" && lowered != "driver" && lowered != "arch";
      CliDsl.RuleOfTerm(t, rules, 3);
    }
  }

  /** The GPUs in `gpus` are checked in order, each against every requirement; the first failure decides. */
  function DeviceChecks(reqs: seq<string>, drv: Driver, gpus: seq<Option<Gpu>>): Option<string>
  {
    if gpus == [] then None
    else
      var here := if gpus[0].None? then None else FirstFailure(reqs, Evaluator(Rules(drv, gpus[0])));
      if here.Some? then here else DeviceChecks(reqs, drv, gpus[1..])
  }

  predicate AnySelected(gpus: seq<Option<Gpu>>)
  {
    exists i :: 0 <= i < |gpus| && gpus[i].Some?
  }

  /**
   * What the requirement check of configure_command reports: per selected GPU when there
   * is one, and globally, with no GPU, only when none is selected.
   */
  function RequirementsCheck(reqs: seq<string>, drv: Driver, gpus: seq<Option<Gpu>>): Option<string>
  {
    if AnySelected(gpus) then DeviceChecks(reqs, drv, gpus)
    else FirstFailure(reqs, Evaluator(Rules(drv, None)))
  }

  /** The per-GPU checks pass exactly when every selected GPU passes all requirements. */
  lemma {:induction false} DeviceChecksMeaning(reqs: seq<string>, drv: Driver, gpus: seq<Option<Gpu>>)
    ensures DeviceChecks(reqs, drv, gpus).None? <==>
      forall i :: 0 <= i < |gpus| && gpus[i].Some? ==> FirstFailure(reqs, Evaluator(Rules(drv, gpus[i]))).None?
    decreases |gpus|
  {
    if gpus != [] {
      DeviceChecksMeaning(reqs, drv, gpus[1..]);
      forall i | 0 < i < |gpus| ensures gpus[i] == gpus[1..][i - 1] {
      }
    }
  }

  /**
   * The container's requirements are met exactly when every requirement holds for every
   * selected GPU, or, with no GPU selected, holds with none bound.
   */
  lemma RequirementsMeaning(reqs: seq<string>, drv: Driver, gpus: seq<Option<Gpu>>)
    ensures RequirementsCheck(reqs, drv, gpus).None? <==>
      if AnySelected(gpus) then
        forall i, j :: 0 <= i < |gpus| && gpus[i].Some? && 0 <= j < |reqs| ==>
          CliDsl.Evaluation(reqs[j], Rules(drv, gpus[i])).Satisfied?
      else
        forall j :: 0 <= j < |reqs| ==> CliDsl.Evaluation(reqs[j], Rules(drv, None)).Satisfied?
  {
    if AnySelected(gpus) {
      DeviceChecksMeaning(reqs, drv, gpus);
      forall i | 0 <= i < |gpus| && gpus[i].Some? {
        FirstFailureMeaning(reqs, Evaluator(Rules(drv, gpus[i])));
      }
    } else {
      FirstFailureMeaning(reqs, Evaluator(Rules(drv, None)));
    }
  }

  /** dsl_evaluate over the stored requirements in order, stopping at the first failure. */
  method EvaluateAll(ctx: Context, rules: seq<Dsl.Rule>) returns (failure: Option<string>)
    requires ctx.Valid()
    ensures failure == FirstFailure(ctx.Value().reqs, Evaluator(rules))
  {
    ghost var reqs := ctx.reqs[..ctx.nreqs];
    for j := 0 to ctx.nreqs
      invariant FirstFailure(reqs[j..], Evaluator(rules)) == FirstFailure(reqs, Evaluator(rules))
    {
      assert reqs[j..][1..] == reqs[j + 1..];
      var o := CliDsl.DslEvaluate(ctx.reqs[j], rules);
      if !o.Satisfied? {
        return Dsl.Message(o);
      }
    }
    failure := None;
  }

  /**
   * The requirement check of configure_command: each selected GPU in turn, and, while
   * `eval_reqs` says none was, once globally at the end.
   */
  method CheckRequirements(ctx: Context, drv: Driver, gpus: seq<Option<Gpu>>) returns (failure: Option<string>)
    requires ctx.Valid()
    ensures failure == RequirementsCheck(ctx.Value().reqs, drv, gpus)
  {
    ghost var reqs := ctx.Value().reqs;
    var evalReqs := true;
    for i := 0 to |gpus|
      invariant evalReqs <==> forall j :: 0 <= j < i ==> gpus[j].None?
      invariant DeviceChecks(reqs, drv, gpus[i..]) == DeviceChecks(reqs, drv, gpus)
    {
      assert gpus[i..][1..] == gpus[i + 1..];
      if gpus[i].None? {
        continue;
      }
      failure := EvaluateAll(ctx, Rules(drv, gpus[i]));
      if failure.Some? {
        return;
      }
      evalReqs := false;
    }
    if evalReqs {
      failure := EvaluateAll(ctx, Rules(drv, None));
    } else {
      failure := None;
    }
  }
}
