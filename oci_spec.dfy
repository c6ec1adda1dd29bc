/**
 * The part of an OCI runtime spec (config.json, version 1.0) that the runtime shims
 * touch: the POSIX-platform hook lists. Everything else in the document is carried
 * through as one opaque value.
 */
module OciSpec {
  import opened Wrappers
  import Text

  /** The file name the NVIDIA hook binary is recognised by. */
  const HookName := "nvidia-container-runtime-hook"

  datatype Hook = Hook(path: string, args: seq<string>)

  /** The hook lists of an OCI runtime spec (v1.0, POSIX-platform hooks). */
  datatype Hooks = Hooks(prestart: seq<Hook>, poststart: seq<Hook>, poststop: seq<Hook>)

  /**
   * An OCI spec as unmarshalled from config.json: the optional hooks, and every other
   * field (which this code never changes) as one opaque value.
   */
  datatype SpecValue = SpecValue(hooks: Option<Hooks>, rest: string)

  /** The unmarshalled spec that the shims update through a pointer. */
  class Spec {
    var hooks: Option<Hooks>
    var rest: string

    constructor (v: SpecValue)
      ensures Value() == v
    {
      hooks := v.hooks;
      rest := v.rest;
    }

    function Value(): SpecValue
      reads this
    {
      SpecValue(hooks, rest)
    }
  }

  predicate IsNvidiaHook(h: Hook) { Text.Contains(h.path, HookName) }

  predicate HasNvidiaHook(hooks: seq<Hook>)
  {
    exists k :: 0 <= k < |hooks| && IsNvidiaHook(hooks[k])
  }

  function NvidiaHookCount(hooks: seq<Hook>): nat
  {
    if hooks == [] then 0
    else NvidiaHookCount(hooks[..|hooks| - 1]) + (if IsNvidiaHook(hooks[|hooks| - 1]) then 1 else 0)
  }

  lemma {:induction false} NoNvidiaHookCount(hooks: seq<Hook>)
    ensures NvidiaHookCount(hooks) == 0 <==> !HasNvidiaHook(hooks)
  {
    if hooks != [] {
      var init := hooks[..|hooks| - 1];
      NoNvidiaHookCount(init);
      if HasNvidiaHook(init) {
        var k :| 0 <= k < |init| && IsNvidiaHook(init[k]);
        assert hooks[k] == init[k];
      }
      if HasNvidiaHook(hooks) && !IsNvidiaHook(hooks[|hooks| - 1]) {
        var k :| 0 <= k < |hooks| && IsNvidiaHook(hooks[k]);
        assert init[k] == hooks[k];
      }
    }
  }


  /** The hook entry both shims add: the binary, with argv [binary, "prestart"]. */
  function PrestartHook(path: string): Hook { Hook(path, [path, "prestart"]) }
}
