/**
 * The library's internal header (src/nvc_internal.h): the device numbers, the library
 * context, the capability tables used when dropping privileges, and the two argument
 * checks every entry point starts with.
 */
module NvcInternal {
  import opened Wrappers
  import ErrorGeneric

  /** Major number of the NVIDIA character devices and minor number of nvidiactl. */
  const NvDeviceMajor: nat := 195
  const NvCtlDeviceMinor: nat := 255

  /** `struct nvc_config` as the context keeps it: NULL strings are None. */
  datatype Config = Config(root: Option<string>, ldcache: Option<string>, uid: nat, gid: nat)

  /** The configuration after memset(&ctx->cfg, 0, ...). */
  const ZeroConfig: Config := Config(None, None, 0, 0)

  /** What a context owns between a successful nvc_init and nvc_shutdown. */
  datatype Resource = RootCopy | LdcacheCopy | MntNsFd | DriverSession

  /** `struct nvc_context`. `held` records what the context must release. */
  class Context {
    var initialized: bool
    const err: ErrorGeneric.Error
    var cfg: Config
    var mntNs: int
    ghost var held: set<Resource>

    /** nvc_context_new: calloc leaves every field zero. */
    constructor ()
      ensures !initialized && cfg == ZeroConfig && mntNs == 0 && held == {}
      ensures fresh(err) && err.code == 0 && err.msg.None?
    {
      initialized := false;
      err := new ErrorGeneric.Error();
      cfg := ZeroConfig;
      mntNs := 0;
      held := {};
    }

    /** An initialized context owns exactly `all`; any other owns nothing. */
    ghost predicate Holds(all: set<Resource>)
      reads this
    {
      held == if initialized then all else {}
    }
  }

  /** nvc_context_free: a NULL context is ignored; otherwise its error is reset. */
  method ContextFree(ctx: Context?)
    modifies if ctx != null then {ctx.err} else {}
    ensures ctx != null ==> ctx.err.code == 0 && ctx.err.msg.None?
  {
    if ctx == null {
      return;
    }
    ErrorGeneric.Reset(ctx.err);
  }

  /** Linux capability numbers (linux/capability.h). */
  const CapChown: int := 0
  const CapDacOverride: int := 1
  const CapDacReadSearch: int := 2
  const CapFowner: int := 3
  const CapKill: int := 5
  const CapSetgid: int := 6
  const CapSetuid: int := 7
  const CapSetpcap: int := 8
  const CapSysModule: int := 16
  const CapSysChroot: int := 18
  const CapSysPtrace: int := 19
  const CapSysAdmin: int := 21
  const CapMknod: int := 27

  /** The rows of effective_caps, in the order of the CAPS_* enumeration. */
  const CapsInit: nat := 0
  const CapsInitKmods: nat := 1
  const CapsShutdown: nat := 2
  const CapsContainer: nat := 3
  const CapsInfo: nat := 4
  const CapsMount: nat := 5
  const CapsLdcache: nat := 6

  /** permitted_caps: every capability the library may ever hold. */
  const PermittedCaps: seq<int> := [
    CapChown, CapDacOverride, CapDacReadSearch, CapFowner, CapKill, CapMknod,
    CapSetgid, CapSetpcap, CapSetuid, CapSysAdmin, CapSysChroot, CapSysPtrace
  ]

  /** inherited_caps. */
  const InheritedCaps: seq<int> := [CapDacOverride, CapSysModule]

  /** Each effective_caps row has one slot more than permitted_caps. */
  const RowLength: nat := 13

  /** `n` zero entries: the part of a row its initializer leaves out. */
  function Zeros(n: nat): (r: seq<int>)
    ensures |r| == n && forall k :: 0 <= k < n ==> r[k] == 0
  {
    if n == 0 then [] else Zeros(n - 1) + [0]
  }

  /** A row of effective_caps: the listed capabilities, the -1 sentinel, zero padding. */
  function Row(caps: seq<int>): (r: seq<int>)
    requires |caps| < RowLength
    ensures |r| == RowLength
  {
    caps + [-1] + Zeros(RowLength - 1 - |caps|)
  }

  /** The capabilities listed in each row, before the sentinel. */
  const EffectiveLists: seq<seq<int>> := [
    [CapKill, CapSetgid, CapSetuid],
    [CapChown, CapFowner, CapMknod, CapKill, CapSetgid, CapSetuid],
    [CapKill],
    [CapDacReadSearch],
    [],
    [CapDacReadSearch, CapSetgid, CapSetuid, CapSysAdmin, CapSysChroot, CapSysPtrace],
    [CapDacReadSearch, CapSetgid, CapSetpcap, CapSetuid, CapSysAdmin, CapSysChroot, CapSysPtrace]
  ]

  /** effective_caps, row by row. */
  const EffectiveCaps: seq<seq<int>> := [
    Row(EffectiveLists[0]), Row(EffectiveLists[1]), Row(EffectiveLists[2]), Row(EffectiveLists[3]),
    Row(EffectiveLists[4]), Row(EffectiveLists[5]), Row(EffectiveLists[6])
  ]

  /** The index of the first -1 in `row`, or |row| when there is none. */
  function SentinelIndex(row: seq<int>): (n: nat)
    ensures n <= |row|
    ensures forall k :: 0 <= k < n ==> row[k] != -1
    ensures n < |row| ==> row[n] == -1
  {
    if row == [] || row[0] == -1 then 0 else 1 + SentinelIndex(row[1..])
  }

  /** effective_caps_size: count the entries of a row up to its sentinel. */
  method EffectiveCapsSize(idx: nat) returns (n: nat)
    requires idx < |EffectiveCaps|
    ensures n == SentinelIndex(EffectiveCaps[idx]) && n <= RowLength
  {
    var row := EffectiveCaps[idx];
    n := 0;
    while n < RowLength
      invariant n <= RowLength
      invariant forall k :: 0 <= k < n ==> row[k] != -1
    {
      if row[n] == -1 {
        break;
      }
      n := n + 1;
    }
  }

  /** A row built from a sentinel-free list ends its capabilities where the list ends. */
  lemma RowSentinel(caps: seq<int>)
    requires |caps| < RowLength && -1 !in caps
    ensures SentinelIndex(Row(caps)) == |caps|
    ensures Row(caps)[..|caps|] == caps
  {
    var r := Row(caps);
    assert r[|caps|] == -1;
    assert forall k :: 0 <= k < |caps| ==> r[k] == caps[k];
  }

  /**
   * Every row holds exactly its listed capabilities before the sentinel, and each of them
   * is in permitted_caps: no privilege set asks for a capability the library does not keep.
   */
  lemma EffectiveCapsPermitted()
    ensures |EffectiveCaps| == |EffectiveLists|
    ensures forall idx :: 0 <= idx < |EffectiveCaps| ==>
      EffectiveCaps[idx][..SentinelIndex(EffectiveCaps[idx])] == EffectiveLists[idx]
    ensures forall idx, k :: 0 <= idx < |EffectiveCaps| && 0 <= k < SentinelIndex(EffectiveCaps[idx]) ==>
      EffectiveCaps[idx][k] in PermittedCaps
  {
    forall idx | 0 <= idx < |EffectiveCaps|
      ensures EffectiveCaps[idx][..SentinelIndex(EffectiveCaps[idx])] == EffectiveLists[idx]
      ensures forall k :: 0 <= k < SentinelIndex(EffectiveCaps[idx]) ==> EffectiveCaps[idx][k] in PermittedCaps
    {
      var caps := EffectiveLists[idx];
      assert forall c :: c in caps ==> c in PermittedCaps;
      RowSentinel(caps);
      var row := EffectiveCaps[idx];
      assert row == Row(caps);
      forall k | 0 <= k < SentinelIndex(row) ensures row[k] in PermittedCaps {
        assert row[k] == row[..|caps|][k] == caps[k];
      }
    }
  }

  /** validate_context: NULL and uninitialized contexts are refused, the latter with a message. */
  method ValidateContext(ctx: Context?) returns (rc: int)
    modifies if ctx != null then {ctx.err} else {}
    ensures ctx == null ==> rc == -1
    ensures ctx != null && !ctx.initialized ==>
      rc == -1 && ctx.err.code == -1 && ctx.err.msg == Some("context uninitialized")
    ensures ctx != null && ctx.initialized ==> rc == 0 && unchanged(ctx.err)
  {
    if ctx == null {
      return -1;
    }
    if !ctx.initialized {
      var _ := ErrorGeneric.SetX(ctx.err, "context uninitialized");
      return -1;
    }
    return 0;
  }

  /** validate_args: a false predicate is refused with "invalid argument". */
  method ValidateArgs(ctx: Context?, holds: bool) returns (rc: int)
    requires !holds ==> ctx != null
    modifies if ctx != null then {ctx.err} else {}
    ensures rc == -1 <==> !holds
    ensures rc == 0 <==> holds
    ensures !holds ==> ctx.err.code == -1 && ctx.err.msg == Some("invalid argument")
    ensures holds && ctx != null ==> unchanged(ctx.err)
  {
    if !holds {
      var _ := ErrorGeneric.SetX(ctx.err, "invalid argument");
      return -1;
    }
    return 0;
  }
}
