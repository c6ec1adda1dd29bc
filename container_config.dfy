/**
 * The prestart hook's view of a container (nvidia-container-runtime-hook/container_config.go):
 * the environment map built from the spec's process.env, and the NVIDIA settings it
 * derives from that map for legacy CUDA images and for images that set the
 * NVIDIA_* variables. A Go panic is modelled as a Failure.
 */
module ContainerConfig {
  import opened Wrappers
  import Text
  import GoPath

  const EnvNvGpu := "NVIDIA_VISIBLE_DEVICES"
  const EnvNvDriverCapabilities := "NVIDIA_DRIVER_CAPABILITIES"
  const EnvLegacyCudaVersion := "CUDA_VERSION"
  const EnvNvCudaVersion := "NVIDIA_CUDA_VERSION"
  const AllCapabilities := "compute,compat32,graphics,utility,video"

  datatype NvidiaConfig = NvidiaConfig(devices: string, capabilities: string, cudaVersion: string)

  /** A Go map read: a missing key reads as "". */
  function Get(env: map<string, string>, key: string): string
  {
    if key in env then env[key] else ""
  }

  predicate HasSeparator(entry: string) { '=' in entry }

  function Key(entry: string): string { Text.SplitFirst(entry, '=')[0] }

  function Value(entry: string): string
    requires HasSeparator(entry)
  {
    Text.SplitFirst(entry, '=')[1]
  }

  /** The map after the first n entries of e, or the panic of an entry without '='. */
  function EnvMapOf(e: seq<string>, n: nat): Result<map<string, string>, string>
    requires n <= |e|
  {
    if n == 0 then Success(map[])
    else match EnvMapOf(e, n - 1)
      case Failure(msg) => Failure(msg)
      case Success(m) =>
        if !HasSeparator(e[n - 1]) then Failure("environment error")
        else Success(m[Key(e[n - 1]) := Value(e[n - 1])])
  }

  /** Once an entry has failed, later entries leave the failure as it is. */
  lemma {:induction false} EnvMapFailureSticks(e: seq<string>, i: nat, n: nat)
    requires i <= n <= |e| && EnvMapOf(e, i).Failure?
    ensures EnvMapOf(e, n) == EnvMapOf(e, i)
    decreases n
  {
    if n > i {
      EnvMapFailureSticks(e, i, n - 1);
    }
  }

  /** getEnvMap: split each entry at its first '=' and store it, later entries overwriting. */
  method GetEnvMap(e: seq<string>) returns (r: Result<map<string, string>, string>)
    ensures r == EnvMapOf(e, |e|)
  {
    var m: map<string, string> := map[];
    for i := 0 to |e|
      invariant EnvMapOf(e, i) == Success(m)
    {
      var p := Text.SplitFirst(e[i], '=');
      assert EnvMapOf(e, i + 1) == if |p| != 2 then Failure("environment error") else Success(m[p[0] := p[1]]);
      if |p| != 2 {
        EnvMapFailureSticks(e, i + 1, |e|);
        return Failure("environment error");
      }
      m := m[p[0] := p[1]];
    }
    return Success(m);
  }

  /** Entry j is the last of the first n entries with its key. */
  predicate LastWithKey(e: seq<string>, j: nat, n: nat)
    requires j < n <= |e|
  {
    forall k :: j < k < n ==> Key(e[k]) != Key(e[j])
  }

  /** The map fails exactly when some entry has no '='. */
  lemma {:induction false} EnvMapFails(e: seq<string>, n: nat)
    requires n <= |e|
    ensures EnvMapOf(e, n).Failure? <==> exists i :: 0 <= i < n && !HasSeparator(e[i])
  {
    if n > 0 {
      EnvMapFails(e, n - 1);
      if !HasSeparator(e[n - 1]) {
        assert EnvMapOf(e, n).Failure?;
      } else {
        assert EnvMapOf(e, n).Failure? == EnvMapOf(e, n - 1).Failure?;
        if exists i :: 0 <= i < n && !HasSeparator(e[i]) {
          var i :| 0 <= i < n && !HasSeparator(e[i]);
          assert i < n - 1;
        }
      }
    }
  }

  /** The keys of the map are the keys of the entries. */
  lemma {:induction false} EnvMapKeys(e: seq<string>, n: nat)
    requires n <= |e| && EnvMapOf(e, n).Success?
    ensures EnvMapOf(e, n).value.Keys == set i | 0 <= i < n :: Key(e[i])
  {
    if n > 0 {
      var prev := EnvMapOf(e, n - 1);
      assert prev.Success? && HasSeparator(e[n - 1]);
      assert EnvMapOf(e, n).value == prev.value[Key(e[n - 1]) := Value(e[n - 1])];
      EnvMapKeys(e, n - 1);
      KeysStep(e, n);
    }
  }

  lemma {:induction false} KeysStep(e: seq<string>, n: nat)
    requires 0 < n <= |e|
    ensures (set i | 0 <= i < n :: Key(e[i])) == (set i | 0 <= i < n - 1 :: Key(e[i])) + {Key(e[n - 1])}
  {
    var before := set i | 0 <= i < n - 1 :: Key(e[i]);
    var after := set i | 0 <= i < n :: Key(e[i]);
    forall k | k in after
      ensures k in before + {Key(e[n - 1])}
    {
      var i :| 0 <= i < n && k == Key(e[i]);
      if i < n - 1 {
        assert k in before;
      }
    }
    forall k | k in before
      ensures k in after
    {
      var i :| 0 <= i < n - 1 && k == Key(e[i]);
    }
    assert Key(e[n - 1]) in after;
  }

  /** Each key maps to the value of the last entry with that key. */
  lemma {:induction false} EnvMapLastWins(e: seq<string>, n: nat, j: nat)
    requires j < n <= |e| && EnvMapOf(e, n).Success? && LastWithKey(e, j, n)
    ensures HasSeparator(e[j]) && Key(e[j]) in EnvMapOf(e, n).value
    ensures EnvMapOf(e, n).value[Key(e[j])] == Value(e[j])
  {
    if j < n - 1 {
      assert LastWithKey(e, j, n - 1);
      assert Key(e[n - 1]) != Key(e[j]);
      EnvMapLastWins(e, n - 1, j);
    }
  }

  /** A legacy CUDA image sets CUDA_VERSION but not NVIDIA_CUDA_VERSION. */
  predicate IsLegacyImage(env: map<string, string>)
  {
    |Get(env, EnvLegacyCudaVersion)| > 0 && |Get(env, EnvNvCudaVersion)| == 0
  }

  /** getNvidiaConfigLegacy: all devices and all capabilities unless the image says otherwise. */
  function LegacyConfig(env: map<string, string>): (r: NvidiaConfig)
    ensures r.devices == "" <==> Get(env, EnvNvGpu) == "none"
    ensures Get(env, EnvNvGpu) == "" ==> r.devices == "all"
    ensures Get(env, EnvNvGpu) !in {"", "none"} ==> r.devices == Get(env, EnvNvGpu)
    ensures r.capabilities != "" && r.capabilities != "all"
    ensures Get(env, EnvNvDriverCapabilities) in {"", "all"} ==> r.capabilities == AllCapabilities
    ensures Get(env, EnvNvDriverCapabilities) !in {"", "all"} ==> r.capabilities == Get(env, EnvNvDriverCapabilities)
    ensures r.cudaVersion == Get(env, EnvLegacyCudaVersion)
  {
    var devices := Get(env, EnvNvGpu);
    var devices := if |devices| == 0 then "all" else devices;
    var devices := if devices == "none" then "" else devices;
    var capabilities := Get(env, EnvNvDriverCapabilities);
    var capabilities := if |capabilities| == 0 || capabilities == "all" then AllCapabilities else capabilities;
    NvidiaConfig(devices, capabilities, Get(env, EnvLegacyCudaVersion))
  }

  /**
   * getNvidiaConfig: the legacy branch for legacy images; otherwise no configuration
   * unless NVIDIA_VISIBLE_DEVICES is set (even to ""), with "none" meaning no device
   * and only an exact "all" widening the capabilities.
   */
  function NvidiaConfigOf(env: map<string, string>): (r: Option<NvidiaConfig>)
    ensures IsLegacyImage(env) ==> r == Some(LegacyConfig(env))
    ensures !IsLegacyImage(env) ==> (r.None? <==> EnvNvGpu !in env)
    ensures !IsLegacyImage(env) && r.Some? ==>
      (r.value.devices == "" <==> env[EnvNvGpu] in {"", "none"}) &&
      (env[EnvNvGpu] != "none" ==> r.value.devices == env[EnvNvGpu]) &&
      r.value.capabilities == (if Get(env, EnvNvDriverCapabilities) == "all" then AllCapabilities
                               else Get(env, EnvNvDriverCapabilities)) &&
      r.value.cudaVersion == Get(env, EnvNvCudaVersion)
    ensures r.Some? ==> r.value.devices != "none"
  {
    var legacyCudaVersion := Get(env, EnvLegacyCudaVersion);
    var cudaVersion := Get(env, EnvNvCudaVersion);
    if |legacyCudaVersion| > 0 && |cudaVersion| == 0 then Some(LegacyConfig(env))
    else if EnvNvGpu !in env then None
    else
      var devices := env[EnvNvGpu];
      var devices := if devices == "none" then "" else devices;
      var capabilities := Get(env, EnvNvDriverCapabilities);
      var capabilities := if capabilities == "all" then AllCapabilities else capabilities;
      Some(NvidiaConfig(devices, capabilities, cudaVersion))
  }

  /** The container state runc passes on stdin, in its newer and older field names. */
  datatype HookState = HookState(pid: int, bundle: string, bundlePath: string)

  /** The two fields of the OCI spec the hook reads; either may be missing. */
  datatype HookSpec = HookSpec(processEnv: Option<seq<string>>, rootPath: Option<string>)

  datatype ContainerConfig = ContainerConfig(
    pid: int, rootfs: string, env: map<string, string>, nvidia: Option<NvidiaConfig>)

  /** The bundle directory: Bundle, or BundlePath for runc before 17.06. */
  function BundleDir(h: HookState): string
  {
    if |h.bundle| == 0 then h.bundlePath else h.bundle
  }

  /** loadSpec: a spec without process or without root panics. */
  function LoadSpec(decoded: Result<HookSpec, string>): (r: Result<HookSpec, string>)
    ensures r.Success? <==> decoded.Success? && decoded.value.processEnv.Some? && decoded.value.rootPath.Some?
    ensures r.Success? ==> r == decoded
  {
    if decoded.Failure? then decoded
    else if decoded.value.processEnv.None? then Failure("Process is empty in OCI spec")
    else if decoded.value.rootPath.None? then Failure("Root is empty in OCI spec")
    else decoded
  }

  /**
   * getContainerConfig: decode the state, read config.json from the bundle, and derive
   * the environment and the NVIDIA settings.
   */
  method GetContainerConfig(state: Result<HookState, string>, readSpec: string -> Result<HookSpec, string>)
    returns (r: Result<ContainerConfig, string>)
    ensures state.Failure? ==> r.Failure?
    ensures r.Success? ==>
      var spec := LoadSpec(readSpec(GoPath.Join(BundleDir(state.value), "config.json")));
      state.Success? && spec.Success? &&
      EnvMapOf(spec.value.processEnv.value, |spec.value.processEnv.value|) == Success(r.value.env) &&
      r.value == ContainerConfig(state.value.pid, spec.value.rootPath.value, r.value.env, NvidiaConfigOf(r.value.env))
    ensures state.Success? && LoadSpec(readSpec(GoPath.Join(BundleDir(state.value), "config.json"))).Success? &&
      (var env := LoadSpec(readSpec(GoPath.Join(BundleDir(state.value), "config.json"))).value.processEnv.value;
       EnvMapOf(env, |env|).Success?)
      ==> r.Success?
  {
    if state.Failure? {
      return Failure("could not decode container state: " + state.error);
    }
    var h := state.value;
    var b := h.bundle;
    if |b| == 0 {
      b := h.bundlePath;
    }
    var s := LoadSpec(readSpec(GoPath.Join(b, "config.json")));
    if s.Failure? {
      return Failure(s.error);
    }
    var env := GetEnvMap(s.value.processEnv.value);
    if env.Failure? {
      return Failure(env.error);
    }
    return Success(ContainerConfig(h.pid, s.value.rootPath.value, env.value, NvidiaConfigOf(env.value)));
  }
}
