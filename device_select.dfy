/**
 * select_devices of the CLI (src/cli/common.c): a comma-separated list of device ids picks
 * GPUs out of the available ones, writing `selected[i] = &available[i]` for each pick. An
 * id is "all", a UUID prefix starting with "GPU-", or a decimal index.
 *
 * A slot of `selected` is `Some(i)` when it points at `available[i]`; whatever the caller
 * left in a slot is kept as any other value.
 */
module DeviceSelect {
  import opened Wrappers
  import Text

  /** `*ptr == '\0' && n < UINTMAX_MAX`: the whole id is one number below the saturation value. */
  function ParseIndex(id: string): (r: Option<nat>)
    ensures r.Some? ==> r.value < Text.UMaxMax
  {
    var (n, end) := Text.StrToUMax(id);
    if end == |id| && n < Text.UMaxMax then Some(n) else None
  }

  /** What one non-empty id picks. */
  datatype Pick = All | One(index: nat) | Unknown

  /** An id of the UUID form: "GPU-" in any case, followed by at least one character. */
  predicate IsUuidId(id: string)
  {
    Text.CaseHasPrefix(id, "GPU-") && |id| > 4
  }

  /** Index of the first UUID having `id` as a case-insensitive prefix, or |uuids|. */
  function UuidIndex(uuids: seq<string>, id: string): (i: nat)
    ensures i <= |uuids|
    ensures i < |uuids| ==> Text.CaseHasPrefix(uuids[i], id)
    ensures forall j :: 0 <= j < i ==> !Text.CaseHasPrefix(uuids[j], id)
    decreases |uuids|
  {
    if uuids == [] then 0
    else if Text.CaseHasPrefix(uuids[0], id) then 0
    else 1 + UuidIndex(uuids[1..], id)
  }

  /** The device a non-empty id picks among devices with these UUIDs. */
  function PickOf(id: string, uuids: seq<string>): Pick
  {
    if Text.CaseEqual(id, "all") then All
    else if IsUuidId(id) then
      var i := UuidIndex(uuids, id);
      if i < |uuids| then One(i) else Unknown
    else
      match ParseIndex(id)
      case Some(n) => if n < |uuids| then One(n) else Unknown
      case None => Unknown
  }

  /** The slots and the error message once the ids have been processed. */
  datatype Selection = Selection(slots: seq<Option<nat>>, error: Option<string>)

  /** Every slot pointed at its own device. */
  function MarkAll(slots: seq<Option<nat>>): seq<Option<nat>>
  {
    seq(|slots|, i => Some(i))
  }

  /**
   * The strsep loop: empty ids are skipped, "all" points every slot at its device and
   * stops, a UUID or index id points one slot, and any other id stops with an error.
   */
  function Select(ids: seq<string>, uuids: seq<string>, slots: seq<Option<nat>>): Selection
    requires |slots| == |uuids|
    decreases |ids|
  {
    if ids == [] then Selection(slots, None)
    else if ids[0] == "" then Select(ids[1..], uuids, slots)
    else
      match PickOf(ids[0], uuids)
      case All => Selection(MarkAll(slots), None)
      case One(i) => Select(ids[1..], uuids, slots[i := Some(i)])
      case Unknown => Selection(slots, Some("unknown device id: " + ids[0]))
  }

  /** The return code of select_devices for a selection. */
  function Code(s: Selection): int
  {
    if s.error.None? then 0 else -1
  }

  // An independent account of the outcome: the set of indices the ids pick.

  /** The indices below `n`. */
  function Below(n: nat): (r: set<nat>)
    ensures forall i: nat :: i in r <==> i < n
  {
    if n == 0 then {} else Below(n - 1) + {n - 1}
  }

  /** The indices picked before processing stops. */
  function Picked(ids: seq<string>, uuids: seq<string>): set<nat>
    decreases |ids|
  {
    if ids == [] then {}
    else if ids[0] == "" then Picked(ids[1..], uuids)
    else
      match PickOf(ids[0], uuids)
      case All => Below(|uuids|)
      case One(i) => {i} + Picked(ids[1..], uuids)
      case Unknown => {}
  }

  /** The slots with those in `s` pointed at their own device. */
  function Mark(slots: seq<Option<nat>>, s: set<nat>): seq<Option<nat>>
  {
    seq(|slots|, i requires 0 <= i < |slots| => if i in s then Some(i) else slots[i])
  }

  /** The first non-empty id that picks nothing, if processing reaches one. */
  function FirstUnknown(ids: seq<string>, uuids: seq<string>): Option<string>
    decreases |ids|
  {
    if ids == [] then None
    else if ids[0] == "" then FirstUnknown(ids[1..], uuids)
    else
      match PickOf(ids[0], uuids)
      case All => None
      case One(_) => FirstUnknown(ids[1..], uuids)
      case Unknown => Some(ids[0])
  }

  /** A pick is always a valid device index. */
  lemma PickInRange(id: string, uuids: seq<string>)
    ensures PickOf(id, uuids).One? ==> PickOf(id, uuids).index < |uuids|
  {
  }

  /**
   * The loop's outcome is the marking of exactly the picked indices, with the error
   * naming the first id that picks nothing.
   */
  lemma {:induction false} SelectMeaning(ids: seq<string>, uuids: seq<string>, slots: seq<Option<nat>>)
    requires |slots| == |uuids|
    ensures Select(ids, uuids, slots).slots == Mark(slots, Picked(ids, uuids))
    ensures Select(ids, uuids, slots).error ==
      (match FirstUnknown(ids, uuids) case None => None case Some(id) => Some("unknown device id: " + id))
    decreases |ids|
  {
    if ids != [] {
      if ids[0] == "" {
        SelectMeaning(ids[1..], uuids, slots);
      } else {
        match PickOf(ids[0], uuids)
        case All =>
          assert MarkAll(slots) == Mark(slots, Picked(ids, uuids));
        case One(i) =>
          PickInRange(ids[0], uuids);
          SelectMeaning(ids[1..], uuids, slots[i := Some(i)]);
          MarkOne(slots, i, Picked(ids[1..], uuids));
        case Unknown =>
          assert slots == Mark(slots, {});
      }
    }
  }

  /** Pointing slot `i` and then the slots of `s` points the slots of `{i} + s`. */
  lemma MarkOne(slots: seq<Option<nat>>, i: nat, s: set<nat>)
    requires i < |slots|
    ensures Mark(slots[i := Some(i)], s) == Mark(slots, {i} + s)
  {
  }

  /** select_devices only ever points slot `i` at `available[i]`; other slots keep their value. */
  lemma SlotsOwnDevice(ids: seq<string>, uuids: seq<string>, slots: seq<Option<nat>>)
    requires |slots| == |uuids|
    ensures var r := Select(ids, uuids, slots).slots;
      |r| == |slots| && forall i :: 0 <= i < |r| ==> r[i] == slots[i] || r[i] == Some(i)
  {
    SelectMeaning(ids, uuids, slots);
  }

  /** A NULL or empty list selects nothing and succeeds. */
  lemma NothingSelected(uuids: seq<string>, slots: seq<Option<nat>>)
    requires |slots| == |uuids|
    ensures Select(Text.Pieces(None, ','), uuids, slots) == Selection(slots, None)
    ensures Select(Text.Pieces(Some(""), ','), uuids, slots) == Selection(slots, None)
  {
    Text.SplitAt("", ',', 0);
  }

  /** "all", in any case, selects every device, whatever ids follow it. */
  lemma {:induction false} AllStops(id: string, rest: seq<string>, uuids: seq<string>, slots: seq<Option<nat>>)
    requires |slots| == |uuids| && Text.CaseEqual(id, "all")
    ensures Select([id] + rest, uuids, slots) == Selection(seq(|slots|, i => Some(i)), None)
  {
    assert ([id] + rest)[0] == id;
  }

  /** A UUID id picks the first device whose UUID it prefixes, and never falls back to an index. */
  lemma UuidPick(id: string, uuids: seq<string>)
    requires IsUuidId(id)
    ensures PickOf(id, uuids).One? <==> exists i :: 0 <= i < |uuids| && Text.CaseHasPrefix(uuids[i], id)
    ensures PickOf(id, uuids).One? ==>
      var i := PickOf(id, uuids).index;
      Text.CaseHasPrefix(uuids[i], id) && forall j :: 0 <= j < i ==> !Text.CaseHasPrefix(uuids[j], id)
  {
    assert |Text.LowerAll(id)| != |Text.LowerAll("all")|;
  }

  /** A run of digits is neither "all" nor of the UUID form. */
  lemma DigitsAreNoWord(s: string)
    requires s != [] && Text.AllDigits(s)
    ensures !Text.CaseEqual(s, "all") && !Text.CaseHasPrefix(s, "GPU-")
  {
    assert Text.LowerAll(s)[0] == s[0];
    assert Text.LowerAll("all")[0] == 'a';
    assert Text.LowerAll("GPU-")[0] == 'g';
  }

  /** The decimal text of an index below the number of devices picks that index. */
  lemma {:induction false} IndexPick(n: nat, uuids: seq<string>)
    requires n < |uuids| && n < Text.UMaxMax
    ensures PickOf(Text.Decimal(n), uuids) == One(n)
  {
    var id := Text.Decimal(n);
    Text.DecimalRoundTrip(n);
    Text.CNumberDigits(id);
    DigitsAreNoWord(id);
  }

  /** The decision of one pass of the loop body for a non-empty id. */
  method ResolveId(id: string, uuids: seq<string>) returns (p: Pick)
    ensures p == PickOf(id, uuids)
  {
    if Text.CaseEqual(id, "all") {
      return All;
    }
    if IsUuidId(id) {
      var i := 0;
      while i < |uuids| && !Text.CaseHasPrefix(uuids[i], id)
        invariant i <= |uuids|
        invariant forall j :: 0 <= j < i ==> !Text.CaseHasPrefix(uuids[j], id)
      {
        i := i + 1;
      }
      assert i == UuidIndex(uuids, id);
      p := if i < |uuids| then One(i) else Unknown;
    } else {
      var (n, end) := Text.StrToUMax(id);
      p := if end == |id| && n < Text.UMaxMax && n < |uuids| then One(n) else Unknown;
    }
  }

  /**
   * select_devices (and the identical select_gpu_devices of src/nvc_cli.c): strsep over
   * the list, writing the chosen slots of `selected` in place.
   */
  method SelectDevices(devs: Option<string>, selected: array<Option<nat>>, uuids: seq<string>)
    returns (rc: int, err: Option<string>)
    requires selected.Length == |uuids|
    modifies selected
    ensures var s := Select(Text.Pieces(devs, ','), uuids, old(selected[..]));
      selected[..] == s.slots && err == s.error && rc == Code(s)
  {
    ghost var goal := Select(Text.Pieces(devs, ','), uuids, selected[..]);
    var ptr := devs;
    while true
      invariant Select(Text.Pieces(ptr, ','), uuids, selected[..]) == goal
      decreases Text.Remaining(ptr)
    {
      var gpu;
      gpu, ptr := Text.Strsep(ptr, ',');
      if gpu.None? {
        break;
      }
      var id := gpu.value;
      if id == "" {
        continue;
      }
      var p := ResolveId(id, uuids);
      match p
      case All =>
        MarkEvery(selected);
        break;
      case One(i) =>
        PickInRange(id, uuids);
        selected[i] := Some(i);
      case Unknown =>
        err := Some("unknown device id: " + id);
        rc := -1;
        return;
    }
    err := None;
    rc := 0;
  }

  /** The "all" loop: every slot pointed at its own device. */
  method MarkEvery(selected: array<Option<nat>>)
    modifies selected
    ensures selected[..] == MarkAll(old(selected[..]))
  {
    for i := 0 to selected.Length
      invariant forall j :: 0 <= j < i ==> selected[j] == Some(j)
    {
      selected[i] := Some(i);
    }
  }
}
