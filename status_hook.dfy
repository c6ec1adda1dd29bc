/**
 * Status dispatch of hook/nvidia-container-runtime-hook/main.go: the hook reads the
 * container state from stdin and acts on its lifecycle status (OCI runtime
 * specification, runtime.md, "State").
 */
module StatusHook {
  import opened Wrappers
  import opened Prestart

  /** The fields of the decoded state that the dispatch looks at. */
  datatype State = State(status: string, bundle: string)

  /** The hook's surroundings; the container facts depend on the decoded state. */
  datatype World = World(
    hook: Result<HookConfig, string>,
    container: State -> Result<Container, string>,
    environ: seq<string>,
    execFails: bool)

  /**
   * main: an undecodable state panics (status 1); `created` runs the prestart step;
   * `creating`, `running` and `stopped` exit 0; any other status prints usage and exits 2.
   */
  method HookMain(state: Result<State, string>, debugFlag: bool, w: World) returns (o: Outcome)
    ensures state.Failure? ==> o == Exit(1)
    ensures state.Success? && state.value.status in {"creating", "running", "stopped"} ==> o == Exit(0)
    ensures state.Success? && state.value.status !in {"created", "creating", "running", "stopped"} ==> o == Exit(2)
    ensures state.Success? && state.value.status == "created" ==>
      PrestartOutcome(o, debugFlag, w.hook, w.container(state.value), w.environ, w.execFails)
    ensures o.Exit? ==> o.status in {0, 1, 2}
  {
    if state.Failure? {
      return Exit(1);
    }
    match state.value.status
    case "created" =>
      o := DoPrestart(debugFlag, w.hook, w.container(state.value), w.environ, w.execFails);
    case "creating" =>
      o := Exit(0);
    case "running" =>
      o := Exit(0);
    case "stopped" =>
      o := Exit(0);
    case _ =>
      o := Exit(2);
  }
}
