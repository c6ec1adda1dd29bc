/**
 * Command dispatch of nvidia-container-runtime-hook/main.go: the hook is run with the
 * lifecycle phase as its first non-flag argument.
 */
module CommandHook {
  import opened Wrappers
  import opened Prestart

  /** What the hook's surroundings answer: configuration, container, environment, exec. */
  datatype World = World(
    hook: Result<HookConfig, string>,
    container: Result<Container, string>,
    environ: seq<string>,
    execFails: bool)

  /**
   * main: no argument or an unknown phase prints usage and exits 2; `prestart` runs the
   * prestart step; `poststart` and `poststop` do nothing and exit 0.
   */
  method HookMain(args: seq<string>, debugFlag: bool, w: World) returns (o: Outcome)
    ensures args == [] ==> o == Exit(2)
    ensures args != [] && args[0] !in {"prestart", "poststart", "poststop"} ==> o == Exit(2)
    ensures args != [] && args[0] in {"poststart", "poststop"} ==> o == Exit(0)
    ensures args != [] && args[0] == "prestart" ==>
      PrestartOutcome(o, debugFlag, w.hook, w.container, w.environ, w.execFails)
    ensures o.Exit? ==> o.status in {0, 1, 2}
  {
    if |args| == 0 {
      return Exit(2);
    }
    match args[0]
    case "prestart" =>
      o := DoPrestart(debugFlag, w.hook, w.container, w.environ, w.execFails);
    case "poststart" =>
      o := Exit(0);
    case "poststop" =>
      o := Exit(0);
    case _ =>
      o := Exit(2);
  }
}
