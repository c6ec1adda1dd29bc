/**
 * The older library entry points (nvc.c): nvc_init loads the UVM kernel module when asked
 * to, resolves the ldcache path, opens the mount namespace and starts the driver; there is
 * no root, no user namespace probe and no id copying. nvc_shutdown and nvc_error are the
 * same as in src/nvc.c and are modelled there (Nvc.Shutdown, Nvc.NvcError).
 *
 * This variant's option table is not part of this model: the table, the default option
 * string and the load-uvm bit are parameters.
 */
module LegacyNvc {
  import opened Wrappers
  import Options
  import ErrorGeneric
  import opened NvcInternal
  import opened Nvc

  /** What an initialized context owns here: the resolved ldcache, the namespace, the driver. */
  const LegacyHeld: set<Resource> := {LdcacheCopy, MntNsFd, DriverSession}

  /** The message of a failed UVM load. */
  const UvmFailed: string := "loading UVM kernel module failed"

  /**
   * The outside calls of this nvc_init: nvidia_uvm_modprobe and nvidia_uvm_mknod (true
   * when they succeed), xrealpath of a path, xopen of the namespace, driver_init.
   */
  datatype LegacyEnv = LegacyEnv(
    uvmModprobe: bool, uvmMknod: bool, realpath: string -> Call<string>, mntNs: Call<nat>, driverInit: Call<()>)

  /** The option table and defaults this variant parses against. */
  datatype OptionSetup = OptionSetup(table: seq<Options.OptionEntry>, defaults: string, loadUvm: Options.Flags)

  /** The path handed to xrealpath: the configured ldcache, or LDCACHE_PATH when unset. */
  function LdcacheRequest(cfg: Config): (r: string)
    ensures cfg.ldcache.Some? ==> r == cfg.ldcache.value
    ensures cfg.ldcache.None? ==> r == LdcachePath
  {
    if cfg.ldcache.Some? then cfg.ldcache.value else LdcachePath
  }

  /**
   * This nvc_init on an uninitialized context whose configuration and namespace descriptor
   * are `ctxCfg` and `ctxMntNs`. A failed UVM load returns before the context is touched;
   * later failures leave the cleared configuration with whatever was resolved.
   */
  function LegacyInitSpec(ctxCfg: Config, ctxMntNs: int, cfg: Config, opts: string, argMax: nat,
                          setup: OptionSetup, env: LegacyEnv): (r: InitTrace)
    ensures !r.ok ==> r.written.Some?
    ensures r.ok ==>
      env.realpath(LdcacheRequest(cfg)).Done? &&
      r.cfg == ZeroConfig.(ldcache := Some(env.realpath(LdcacheRequest(cfg)).value)) &&
      env.mntNs.Done? && r.mntNs == env.mntNs.value && env.driverInit.Done?
  {
    match Options.Parse(opts, setup.table, argMax)
    case Failure(msg) => InitTrace(false, Some((-1, msg)), ctxCfg, ctxMntNs)
    case Success(flags) =>
      if flags * setup.loadUvm != {} && !(env.uvmModprobe && env.uvmMknod) then
        InitTrace(false, Some((-1, UvmFailed)), ctxCfg, ctxMntNs)
      else
        LegacySetupSpec(env.realpath(LdcacheRequest(cfg)), env)
  }

  /** The steps after the UVM load: resolve the ldcache, open the namespace, start the driver. */
  function LegacySetupSpec(resolved: Call<string>, env: LegacyEnv): (r: InitTrace)
    ensures !r.ok ==> r.written.Some?
    ensures r.ok ==>
      resolved.Done? && r.cfg == ZeroConfig.(ldcache := Some(resolved.value)) &&
      env.mntNs.Done? && r.mntNs == env.mntNs.value && env.driverInit.Done?
  {
    match resolved
    case Failed(code, msg) => InitTrace(false, Some((code, msg)), ZeroConfig, -1)
    case Done(path) =>
      var copied := ZeroConfig.(ldcache := Some(path));
      match env.mntNs
      case Failed(code, msg) => InitTrace(false, Some((code, msg)), copied, -1)
      case Done(fd) =>
        match env.driverInit
        case Failed(code, msg) => InitTrace(false, Some((code, msg)), copied, fd)
        case Done(_) => InitTrace(true, None, copied, fd)
  }

  /** A failed UVM load leaves the configuration and descriptor as they were, with its message. */
  lemma UvmFailureKeepsContext(ctxCfg: Config, ctxMntNs: int, cfg: Config, opts: string, argMax: nat,
                               setup: OptionSetup, env: LegacyEnv)
    requires Options.Parse(opts, setup.table, argMax).Success?
    requires Options.Parse(opts, setup.table, argMax).value * setup.loadUvm != {}
    requires !env.uvmModprobe || !env.uvmMknod
    ensures LegacyInitSpec(ctxCfg, ctxMntNs, cfg, opts, argMax, setup, env) ==
      InitTrace(false, Some((-1, UvmFailed)), ctxCfg, ctxMntNs)
  {
  }

  /** Without the load-uvm option the UVM calls play no part. */
  lemma NoUvmNoProbe(ctxCfg: Config, ctxMntNs: int, cfg: Config, opts: string, argMax: nat,
                     setup: OptionSetup, env: LegacyEnv, modprobe: bool, mknod: bool)
    requires Options.Parse(opts, setup.table, argMax).Success?
    requires Options.Parse(opts, setup.table, argMax).value * setup.loadUvm == {}
    ensures LegacyInitSpec(ctxCfg, ctxMntNs, cfg, opts, argMax, setup, env) ==
      LegacyInitSpec(ctxCfg, ctxMntNs, cfg, opts, argMax, setup, env.(uvmModprobe := modprobe, uvmMknod := mknod))
  {
  }

  /** An unset ldcache behaves exactly as an explicit LDCACHE_PATH. */
  lemma LdcacheDefault(ctxCfg: Config, ctxMntNs: int, cfg: Config, opts: string, argMax: nat,
                       setup: OptionSetup, env: LegacyEnv)
    requires cfg.ldcache.None?
    ensures LegacyInitSpec(ctxCfg, ctxMntNs, cfg, opts, argMax, setup, env) ==
      LegacyInitSpec(ctxCfg, ctxMntNs, cfg.(ldcache := Some(LdcachePath)), opts, argMax, setup, env)
  {
  }

  /**
   * nvc_init of nvc.c. A NULL context fails; an initialized one is left alone; otherwise
   * the context follows LegacyInitSpec and is initialized, owning its resources, exactly
   * when every step succeeded.
   */
  method LegacyInit(ctx: Context?, cfg: Option<Config>, opts: Option<string>, argMax: nat,
                    setup: OptionSetup, env: LegacyEnv) returns (rc: int)
    requires ctx != null ==> ctx.Holds(LegacyHeld)
    modifies if ctx != null then {ctx, ctx.err} else {}
    ensures ctx == null ==> rc == -1
    ensures ctx != null ==> ctx.Holds(LegacyHeld) && (rc == 0 <==> ctx.initialized) && (rc == 0 || rc == -1)
    ensures ctx != null && old(ctx.initialized) ==> rc == 0 && unchanged(ctx, ctx.err)
    ensures ctx != null && !old(ctx.initialized) ==>
      var t := LegacyInitSpec(old(ctx.cfg), old(ctx.mntNs), cfg.UnwrapOr(ZeroConfig), opts.UnwrapOr(setup.defaults),
                              argMax, setup, env);
      (rc == 0 <==> t.ok) && ctx.cfg == t.cfg && ctx.mntNs == t.mntNs &&
      (ctx.err.code, ctx.err.msg) == After(old((ctx.err.code, ctx.err.msg)), t.written)
    ensures ctx != null && rc != 0 ==> NvcError(ctx).Some?
  {
    if ctx == null {
      return -1;
    }
    if ctx.initialized {
      return 0;
    }
    var config := if cfg.Some? then cfg.value else ZeroConfig;
    var options := if opts.Some? then opts.value else setup.defaults;
    var flags := Options.OptionsParse(options, setup.table, argMax);
    if flags.Failure? {
      var _ := ErrorGeneric.SetX(ctx.err, flags.error);
      return -1;
    }
    if flags.value * setup.loadUvm != {} {
      if !env.uvmModprobe || !env.uvmMknod {
        var _ := ErrorGeneric.SetX(ctx.err, UvmFailed);
        return -1;
      }
    }
    ctx.cfg := ZeroConfig;
    ctx.mntNs := -1;
    rc := LegacySetup(ctx, LdcacheRequest(config), env);
  }

  /** The body of this nvc_init from the resolution of the ldcache on, over a cleared context. */
  method LegacySetup(ctx: Context, ldcache: string, env: LegacyEnv) returns (rc: int)
    requires !ctx.initialized && ctx.held == {} && ctx.cfg == ZeroConfig && ctx.mntNs == -1
    modifies ctx, ctx.err
    ensures var t := LegacySetupSpec(env.realpath(ldcache), env);
      (rc == 0 <==> t.ok) && ctx.cfg == t.cfg && ctx.mntNs == t.mntNs &&
      (ctx.err.code, ctx.err.msg) == After(old((ctx.err.code, ctx.err.msg)), t.written)
    ensures ctx.Holds(LegacyHeld) && (rc == 0 <==> ctx.initialized) && (rc == 0 || rc == -1)
  {
    var resolved := env.realpath(ldcache);
    match resolved {
      case Failed(code, msg) =>
        Record(ctx.err, code, msg);
        return -1;
      case Done(path) =>
        ctx.cfg := ctx.cfg.(ldcache := Some(path));
        ctx.held := ctx.held + {LdcacheCopy};
    }
    match env.mntNs {
      case Failed(code, msg) =>
        Record(ctx.err, code, msg);
        ctx.held := {};
        return -1;
      case Done(fd) =>
        ctx.mntNs := fd;
        ctx.held := ctx.held + {MntNsFd};
    }
    match env.driverInit {
      case Failed(code, msg) =>
        Record(ctx.err, code, msg);
        ctx.held := {};
        return -1;
      case Done(_) =>
        ctx.held := ctx.held + {DriverSession};
    }
    ctx.initialized := true;
    return 0;
  }
}
