/**
 * options_parse of libnvidia-container (src/options.c): a space-separated list of option
 * names becomes the bitwise OR of their values, taken from one of the option tables of
 * src/options.h.
 */
module Options {
  import opened Wrappers
  import Text

  /**
   * An int32 of flags, as the set of its bit positions that are 1: `|` is union and
   * `flags & OPT_X` is non-zero when the bits meet.
   */
  type Flags = set<nat>

  /** One entry of an option table: a name and the bits it sets. */
  datatype OptionEntry = OptionEntry(name: string, value: Flags)

  /** Library options. */
  const OptLoadKmods: Flags := {0}

  /** Driver options. */
  const OptUtilityLibs: Flags := {0}
  const OptComputeLibs: Flags := {1}
  const OptVideoLibs: Flags := {2}
  const OptGraphicLibs: Flags := {3}
  const OptUtilityBins: Flags := {4}
  const OptComputeBins: Flags := {5}
  const OptCompat32: Flags := {6}
  const OptNoGlvnd: Flags := {7}
  const OptNoUvm: Flags := {8}
  const OptNoMps: Flags := {9}
  const OptNoPersistenced: Flags := {10}

  /** Container options. */
  const OptSupervised: Flags := {0}
  const OptStandalone: Flags := {1}
  const OptNoCgroups: Flags := {2}
  const OptNoDevbind: Flags := {3}

  const LibraryOpts: seq<OptionEntry> := [OptionEntry("load-kmods", OptLoadKmods)]

  const DriverOpts: seq<OptionEntry> := [
    OptionEntry("utility", OptUtilityBins + OptUtilityLibs),
    OptionEntry("compute", OptComputeBins + OptComputeLibs),
    OptionEntry("video", OptVideoLibs),
    OptionEntry("graphic", OptGraphicLibs),
    OptionEntry("compat32", OptCompat32),
    OptionEntry("no-glvnd", OptNoGlvnd),
    OptionEntry("no-uvm", OptNoUvm),
    OptionEntry("no-mps", OptNoMps),
    OptionEntry("no-persistenced", OptNoPersistenced)
  ]

  const DeviceOpts: seq<OptionEntry> := [
    OptionEntry("utility", {}), OptionEntry("compute", {}), OptionEntry("video", {}), OptionEntry("graphic", {})
  ]

  const ContainerOpts: seq<OptionEntry> := [
    OptionEntry("supervised", OptSupervised),
    OptionEntry("standalone", OptStandalone),
    OptionEntry("no-cgroups", OptNoCgroups),
    OptionEntry("no-devbind", OptNoDevbind)
  ]

  /** The sign bit of int32: a table value without it keeps the result apart from -1. */
  const SignBit: nat := 31

  /** Index of the first entry named exactly `name`, or |opts|. */
  function OptionIndex(opts: seq<OptionEntry>, name: string): (i: nat)
    ensures i <= |opts|
    ensures i < |opts| ==> opts[i].name == name
    ensures forall j :: 0 <= j < i ==> opts[j].name != name
    decreases |opts|
  {
    if opts == [] then 0
    else if opts[0].name == name then 0
    else 1 + OptionIndex(opts[1..], name)
  }

  predicate Known(opts: seq<OptionEntry>, name: string)
  {
    exists j :: 0 <= j < |opts| && opts[j].name == name
  }

  /** The value of a known option name. */
  function ValueOf(opts: seq<OptionEntry>, name: string): Flags
  {
    var i := OptionIndex(opts, name);
    if i < |opts| then opts[i].value else {}
  }

  /** The strsep loop: OR in each non-empty token's value, stop at the first unknown token. */
  function Accumulate(tokens: seq<string>, opts: seq<OptionEntry>, flags: Flags): Result<Flags, string>
    decreases |tokens|
  {
    if tokens == [] then Success(flags)
    else if tokens[0] == "" then Accumulate(tokens[1..], opts, flags)
    else
      var i := OptionIndex(opts, tokens[0]);
      if i == |opts| then Failure("invalid option: " + tokens[0])
      else Accumulate(tokens[1..], opts, flags + opts[i].value)
  }

  /**
   * options_parse: a string of NVC_ARG_MAX characters or more is refused before any
   * token is read; otherwise the tokens between spaces are accumulated from 0.
   */
  function Parse(str: string, opts: seq<OptionEntry>, argMax: nat): Result<Flags, string>
  {
    if |str| >= argMax then Failure("too many options")
    else Accumulate(Text.Split(str, ' '), opts, {})
  }

  /** The OR of the values of all non-empty tokens. */
  function OrAll(tokens: seq<string>, opts: seq<OptionEntry>): Flags
    decreases |tokens|
  {
    if tokens == [] then {}
    else (if tokens[0] == "" then {} else ValueOf(opts, tokens[0])) + OrAll(tokens[1..], opts)
  }

  /** The tokens that count: the non-empty ones. */
  function TokenSet(tokens: seq<string>): set<string>
  {
    set k | 0 <= k < |tokens| && tokens[k] != "" :: tokens[k]
  }

  predicate AllKnown(tokens: seq<string>, opts: seq<OptionEntry>)
  {
    forall k :: 0 <= k < |tokens| && tokens[k] != "" ==> Known(opts, tokens[k])
  }

  /** The first non-empty token not in the table, when there is one. */
  function FirstUnknown(tokens: seq<string>, opts: seq<OptionEntry>): (r: Option<string>)
    decreases |tokens|
  {
    if tokens == [] then None
    else if tokens[0] != "" && !Known(opts, tokens[0]) then Some(tokens[0])
    else FirstUnknown(tokens[1..], opts)
  }

  lemma KnownIndex(opts: seq<OptionEntry>, name: string)
    ensures Known(opts, name) <==> OptionIndex(opts, name) < |opts|
  {
    if Known(opts, name) {
      var j :| 0 <= j < |opts| && opts[j].name == name;
      assert OptionIndex(opts, name) <= j;
    }
  }

  lemma {:induction false} AllKnownTail(tokens: seq<string>, opts: seq<OptionEntry>)
    requires tokens != []
    ensures AllKnown(tokens, opts) <==>
      (tokens[0] == "" || Known(opts, tokens[0])) && AllKnown(tokens[1..], opts)
  {
    var rest := tokens[1..];
    assert forall k :: 0 <= k < |rest| ==> rest[k] == tokens[k + 1];
    if (tokens[0] == "" || Known(opts, tokens[0])) && AllKnown(rest, opts) {
      forall k | 0 <= k < |tokens| && tokens[k] != "" ensures Known(opts, tokens[k]) {
        if k > 0 { assert tokens[k] == rest[k - 1]; }
      }
    }
  }

  /**
   * The loop succeeds exactly when every non-empty token names an option; the flags are
   * then the starting flags OR the values of all tokens, and otherwise the error names the
   * first unknown token.
   */
  lemma {:induction false} AccumulateMeaning(tokens: seq<string>, opts: seq<OptionEntry>, flags: Flags)
    ensures Accumulate(tokens, opts, flags).Success? <==> AllKnown(tokens, opts)
    ensures AllKnown(tokens, opts) ==> Accumulate(tokens, opts, flags).value == flags + OrAll(tokens, opts)
    ensures !AllKnown(tokens, opts) ==>
      (FirstUnknown(tokens, opts).Some? &&
       Accumulate(tokens, opts, flags) == Failure("invalid option: " + FirstUnknown(tokens, opts).value))
    decreases |tokens|
  {
    if tokens != [] {
      AllKnownTail(tokens, opts);
      KnownIndex(opts, tokens[0]);
      if tokens[0] == "" {
        AccumulateMeaning(tokens[1..], opts, flags);
      } else if Known(opts, tokens[0]) {
        AccumulateMeaning(tokens[1..], opts, flags + ValueOf(opts, tokens[0]));
      }
    }
  }

  /** A token that occurs in a list adds nothing to the OR of that list. */
  lemma {:induction false} Absorbed(t: string, tokens: seq<string>, opts: seq<OptionEntry>)
    requires t in TokenSet(tokens)
    ensures ValueOf(opts, t) <= OrAll(tokens, opts)
    decreases |tokens|
  {
    if tokens[0] != t {
      var k :| 0 <= k < |tokens| && tokens[k] != "" && tokens[k] == t;
      assert tokens[1..][k - 1] == t;
      Absorbed(t, tokens[1..], opts);
    }
  }

  /** The OR over a list is contained in the OR over any list with at least its tokens. */
  lemma {:induction false} OrAllSubset(a: seq<string>, b: seq<string>, opts: seq<OptionEntry>)
    requires TokenSet(a) <= TokenSet(b)
    ensures OrAll(a, opts) <= OrAll(b, opts)
    decreases |a|
  {
    if a != [] {
      var rest := a[1..];
      assert TokenSet(rest) <= TokenSet(a) by {
        forall t | t in TokenSet(rest) ensures t in TokenSet(a) {
          var k :| 0 <= k < |rest| && rest[k] != "" && rest[k] == t;
          assert a[k + 1] == t;
        }
      }
      OrAllSubset(rest, b, opts);
      if a[0] != "" {
        assert a[0] in TokenSet(a);
        Absorbed(a[0], b, opts);
      }
    }
  }

  /**
   * The flags depend only on which tokens occur: neither their order nor their repetition
   * nor empty tokens matter.
   */
  lemma {:induction false} SameTokensSameFlags(a: seq<string>, b: seq<string>, opts: seq<OptionEntry>)
    requires TokenSet(a) == TokenSet(b)
    ensures OrAll(a, opts) == OrAll(b, opts)
  {
    OrAllSubset(a, b, opts);
    OrAllSubset(b, a, opts);
  }

  /** Flags that fit a non-negative int32: every bit below the sign bit. */
  predicate NonNegativeFlags(f: Flags)
  {
    forall b :: b in f ==> b < SignBit
  }

  /** The int32 -1: all 32 bits set. */
  const MinusOne: Flags := set b: nat | b < 32

  /** A table none of whose values has the sign bit. */
  predicate NonNegative(opts: seq<OptionEntry>)
  {
    forall j :: 0 <= j < |opts| ==> NonNegativeFlags(opts[j].value)
  }

  lemma {:induction false} OrAllNonNegative(tokens: seq<string>, opts: seq<OptionEntry>)
    requires NonNegative(opts)
    ensures NonNegativeFlags(OrAll(tokens, opts))
    decreases |tokens|
  {
    if tokens != [] {
      OrAllNonNegative(tokens[1..], opts);
    }
  }

  /** Every table of src/options.h keeps the sign bit clear. */
  lemma TablesNonNegative()
    ensures NonNegative(LibraryOpts) && NonNegative(DriverOpts)
    ensures NonNegative(DeviceOpts) && NonNegative(ContainerOpts)
  {
  }

  /**
   * With such a table a successful parse never has the sign bit set, so the int32 the C
   * function returns is never the error value -1.
   */
  lemma SuccessNeverMinusOne(str: string, opts: seq<OptionEntry>, argMax: nat)
    requires NonNegative(opts) && Parse(str, opts, argMax).Success?
    ensures NonNegativeFlags(Parse(str, opts, argMax).value)
    ensures Parse(str, opts, argMax).value != MinusOne
  {
    var tokens := Text.Split(str, ' ');
    AccumulateMeaning(tokens, opts, {});
    OrAllNonNegative(tokens, opts);
    assert SignBit in MinusOne;
  }

  /** The entry search of options_parse, as the loop it is. */
  method FindOption(opts: seq<OptionEntry>, name: string) returns (i: nat)
    ensures i == OptionIndex(opts, name)
  {
    i := 0;
    while i < |opts| && opts[i].name != name
      invariant i <= |opts|
      invariant forall j :: 0 <= j < i ==> opts[j].name != name
    {
      i := i + 1;
    }
  }

  /**
   * options_parse: the length check, then strsep over a copy of the string, OR-ing in the
   * value of each non-empty token.
   */
  method OptionsParse(str: string, opts: seq<OptionEntry>, argMax: nat) returns (r: Result<Flags, string>)
    ensures r == Parse(str, opts, argMax)
  {
    if |str| >= argMax {
      return Failure("too many options");
    }
    var ptr := Some(str);
    var flags: Flags := {};
    while true
      invariant Accumulate(Text.Pieces(ptr, ' '), opts, flags) == Parse(str, opts, argMax)
      decreases Text.Remaining(ptr)
    {
      var opt;
      opt, ptr := Text.Strsep(ptr, ' ');
      if opt.None? {
        break;
      }
      if opt.value == "" {
        continue;
      }
      var i := FindOption(opts, opt.value);
      if i == |opts| {
        return Failure("invalid option: " + opt.value);
      }
      flags := flags + opts[i].value;
    }
    r := Success(flags);
  }

  /** `n` spaces. */
  function Spaces(n: nat): string
  {
    seq(n, _ => ' ')
  }

  /** An empty string, or one of spaces only, parses to no flags at all. */
  lemma {:induction false} BlankParse(n: nat, opts: seq<OptionEntry>, argMax: nat)
    requires n < argMax
    ensures Parse(Spaces(n), opts, argMax) == Success({})
  {
    var tokens := Text.Split(Spaces(n), ' ');
    BlankPieces(n);
    forall k | 0 <= k < |tokens| ensures tokens[k] == "" {
      assert tokens[k] in tokens;
    }
    assert TokenSet(tokens) == TokenSet([]);
    SameTokensSameFlags(tokens, [], opts);
    AccumulateMeaning(tokens, opts, {});
  }

  /** The pieces of a run of spaces are all empty. */
  lemma {:induction false} BlankPieces(n: nat)
    ensures forall t | t in Text.Split(Spaces(n), ' ') :: t == ""
  {
    var s := Spaces(n);
    Text.SplitAt(s, ' ', 0);
    if n > 0 {
      assert s[1..] == Spaces(n - 1);
      BlankPieces(n - 1);
    }
  }
}
