/**
 * The option state nvidia-container-cli builds while argp walks its command line (the
 * `struct context` of src/nvc_cli.c and of src/cli/cli.h), the replies of a command's
 * argp parser, and argp's walk itself as far as the parsers depend on it: options and
 * positional arguments in order, then the end of the arguments, then success.
 */
module CliContext {
  import opened Wrappers
  import Text
  import Utils
  import Dsl

  /** The argp keys the command parsers see: their options and argp's special keys. */
  datatype Key =
    | Pid | Device | Require | Ldconfig | Info
    | Compute | Utility | Video | Graphics | Display | Compat32 | NoCgroups | NoDevbind
    | KeyArg        // ARGP_KEY_ARG: a positional argument
    | KeyEnd        // ARGP_KEY_END: all arguments are processed
    | KeySuccess    // ARGP_KEY_SUCCESS: the parse went through
    | Other         // any key the parser does not know

  /**
   * How a parser call ends: it returns 0, argp_usage exits with the usage text, errx exits
   * with "input error: " and the message, or the key is not its own (ARGP_ERR_UNKNOWN).
   */
  datatype Reply = Handled | Usage | Fatal(msg: string) | Unknown

  /** The space-separated flag strings of the context. */
  datatype FlagField = InitFlags | DriverFlags | DeviceFlags | ContainerFlags

  /** The context as a value; `reqs` holds the first nreqs entries of the fixed array. */
  datatype State = State(pid: int, rootfs: Option<string>, devices: Option<string>, reqs: seq<string>,
                         ldconfig: Option<string>, listInfo: bool,
                         initFlags: Option<string>, driverFlags: Option<string>,
                         deviceFlags: Option<string>, containerFlags: Option<string>)

  /** The zero-initialised context main starts from, as far as the command parsers see it. */
  const Initial: State := State(0, None, None, [], None, false, None, None, None, None)

  function Field(st: State, f: FlagField): Option<string>
  {
    match f
    case InitFlags => st.initFlags
    case DriverFlags => st.driverFlags
    case DeviceFlags => st.deviceFlags
    case ContainerFlags => st.containerFlags
  }

  /** The state with everything but the flag strings: what a flag join must leave alone. */
  function Rest(st: State): State
  {
    st.(initFlags := None, driverFlags := None, deviceFlags := None, containerFlags := None)
  }

  /** strjoin(&err, &ctx-><f>, word, " "). */
  function Join(st: State, f: FlagField, word: string): (r: State)
    ensures Field(r, f) == Some(Utils.StrJoin(Field(st, f), word, " "))
    ensures forall g :: g != f ==> Field(r, g) == Field(st, g)
    ensures Rest(r) == Rest(st)
  {
    var joined := Some(Utils.StrJoin(Field(st, f), word, " "));
    match f
    case InitFlags => st.(initFlags := joined)
    case DriverFlags => st.(driverFlags := joined)
    case DeviceFlags => st.(deviceFlags := joined)
    case ContainerFlags => st.(containerFlags := joined)
  }

  /** The 'r' option: the expression is stored unless the array is full. */
  function Stored(st: State, capacity: nat, arg: string): (r: (Reply, State))
  {
    if |st.reqs| >= capacity then (Fatal("too many requirements"), st)
    else (Handled, st.(reqs := st.reqs + [arg]))
  }

  /** A requirement is stored exactly while there is room, and nothing else changes. */
  lemma StoredBounded(st: State, capacity: nat, arg: string)
    ensures var (reply, next) := Stored(st, capacity, arg);
      (reply == Handled <==> |st.reqs| < capacity) &&
      (reply == Handled ==> next.reqs == st.reqs + [arg] && next.(reqs := st.reqs) == st) &&
      (reply != Handled ==> reply == Fatal("too many requirements") && next == st)
  {
  }

  /** The flag string after strjoin-ing `words` one by one into a NULL string. */
  function Joined(words: seq<string>): Option<string>
  {
    if words == [] then None
    else Some(Utils.StrJoin(Joined(words[..|words| - 1]), words[|words| - 1], " "))
  }

  /** Joining one word more onto a joined flag string. */
  lemma JoinedSnoc(words: seq<string>, word: string)
    ensures Joined(words + [word]) == Some(Utils.StrJoin(Joined(words), word, " "))
  {
    assert (words + [word])[..|words|] == words;
  }

  /** A word joined into a flag string that holds `words` makes it hold one word more. */
  lemma JoinExtends(st: State, f: FlagField, words: seq<string>, word: string)
    requires Field(st, f) == Joined(words)
    ensures Field(Join(st, f, word), f) == Joined(words + [word])
  {
    assert (words + [word])[..|words|] == words;
  }

  predicate Word(w: string)
  {
    w != "" && ' ' !in w
  }

  /**
   * A flag string joined from non-empty words without spaces splits on ' ' back into those
   * words, which is how options_parse later reads it.
   */
  lemma {:induction false} JoinedSplits(words: seq<string>)
    requires words != [] && forall k :: 0 <= k < |words| ==> Word(words[k])
    ensures Joined(words).Some? && Joined(words).value != ""
    ensures Text.Split(Joined(words).value, ' ') == words
    decreases |words|
  {
    var last := words[|words| - 1];
    var front := words[..|words| - 1];
    Text.SplitNoSeparator(last, ' ');
    if front == [] {
      assert words == [last];
    } else {
      JoinedSplits(front);
      var s := Joined(front).value;
      assert Joined(words).value == s + " " + last;
      Text.SplitConcat(s, ' ', last);
      assert s + " " + last == s + [' '] + last;
      assert words == front + [last];
    }
  }

  /** One call of a command parser: the key, its argument, argp's arg_num, and the context. */
  type Step = (State, Key, string, nat) -> (Reply, State)

  datatype Event = Event(key: Key, arg: string)

  /**
   * argp's walk over the parser calls: each call that returns 0 lets the walk go on, and a
   * positional argument counts into arg_num; any other reply ends it (argp_usage and errx
   * exit, an unknown option is an error).
   */
  function Run(step: Step, st: State, events: seq<Event>, argNum: nat): (Reply, State)
    decreases |events|
  {
    if events == [] then (Handled, st)
    else
      var (reply, next) := step(st, events[0].key, events[0].arg, argNum);
      if reply != Handled then (reply, next)
      else Run(step, next, events[1..], if events[0].key == KeyArg then argNum + 1 else argNum)
  }

  /** The number of positional arguments among the events. */
  function Positionals(events: seq<Event>): nat
  {
    if events == [] then 0
    else (if events[0].key == KeyArg then 1 else 0) + Positionals(events[1..])
  }

  lemma {:induction false} PositionalsAppend(a: seq<Event>, b: seq<Event>)
    ensures Positionals(a + b) == Positionals(a) + Positionals(b)
    decreases |a|
  {
    if a != [] {
      assert (a + b)[1..] == a[1..] + b;
      PositionalsAppend(a[1..], b);
    } else {
      assert a + b == b;
    }
  }

  /** A walk over a + b is the walk over a, then, if that went through, the walk over b. */
  lemma {:induction false} RunAppend(step: Step, st: State, a: seq<Event>, b: seq<Event>, argNum: nat)
    ensures var (reply, next) := Run(step, st, a, argNum);
      Run(step, st, a + b, argNum) ==
        if reply == Handled then Run(step, next, b, argNum + Positionals(a)) else (reply, next)
    decreases |a|
  {
    if a != [] {
      assert (a + b)[0] == a[0] && (a + b)[1..] == a[1..] + b;
      var (reply, next) := step(st, a[0].key, a[0].arg, argNum);
      if reply == Handled {
        RunAppend(step, next, a[1..], b, if a[0].key == KeyArg then argNum + 1 else argNum);
      }
    } else {
      assert a + b == b;
    }
  }

  /**
   * The parser refuses a positional argument after the first one and, at the end, refuses
   * to have seen none: both with argp_usage.
   */
  ghost predicate GuardsPositionals(step: Step)
  {
    (forall st: State, arg: string, n: nat :: n > 0 ==> step(st, KeyArg, arg, n).0 == Usage) &&
    (forall st: State, arg: string :: step(st, KeyEnd, arg, 0).0 == Usage)
  }

  /** Under those guards, a walk that goes through has seen at most one positional argument. */
  lemma {:induction false} AtMostOnePositional(step: Step, st: State, events: seq<Event>, argNum: nat)
    requires GuardsPositionals(step)
    requires Run(step, st, events, argNum).0 == Handled
    ensures Positionals(events) == 0 || (argNum == 0 && Positionals(events) == 1)
    decreases |events|
  {
    if events != [] {
      var e := events[0];
      var (reply, next) := step(st, e.key, e.arg, argNum);
      assert reply == Handled;
      if e.key == KeyArg {
        assert argNum == 0;
        AtMostOnePositional(step, next, events[1..], argNum + 1);
      } else {
        AtMostOnePositional(step, next, events[1..], argNum);
      }
    }
  }

  /**
   * Exactly one ROOTFS: a walk that reaches the end of the arguments and goes on through it
   * has seen one positional argument before it, no more and no fewer.
   */
  lemma ExactlyOnePositional(step: Step, st: State, events: seq<Event>, end: string, after: seq<Event>)
    requires GuardsPositionals(step)
    requires Run(step, st, events + [Event(KeyEnd, end)] + after, 0).0 == Handled
    ensures Positionals(events) == 1
  {
    var tail := [Event(KeyEnd, end)] + after;
    assert events + [Event(KeyEnd, end)] + after == events + tail;
    RunAppend(step, st, events, tail, 0);
    var (reply, next) := Run(step, st, events, 0);
    if reply == Handled {
      AtMostOnePositional(step, st, events, 0);
    }
  }

  /**
   * The mutable context. `reqs` is the fixed array of requirement expressions, of which the
   * first nreqs are in use.
   */
  class Context {
    var pid: int
    var rootfs: Option<string>
    var devices: Option<string>
    const reqs: array<string>
    var nreqs: nat
    var ldconfig: Option<string>
    var listInfo: bool
    var initFlags: Option<string>
    var driverFlags: Option<string>
    var deviceFlags: Option<string>
    var containerFlags: Option<string>

    ghost predicate Valid()
      reads this
    {
      nreqs <= reqs.Length
    }

    function Value(): State
      reads this, reqs
      requires Valid()
    {
      State(pid, rootfs, devices, reqs[..nreqs], ldconfig, listInfo, initFlags, driverFlags, deviceFlags, containerFlags)
    }

    /** A zeroed context with room for `capacity` requirements. */
    constructor (capacity: nat)
      ensures Valid() && Value() == Initial && reqs.Length == capacity
    {
      pid := 0;
      rootfs := None;
      devices := None;
      reqs := new string[capacity](_ => "");
      nreqs := 0;
      ldconfig := None;
      listInfo := false;
      initFlags := None;
      driverFlags := None;
      deviceFlags := None;
      containerFlags := None;
    }

    /** strjoin into one of the flag strings. */
    method JoinFlag(f: FlagField, word: string)
      requires Valid()
      modifies this
      ensures Valid() && Value() == Join(old(Value()), f, word)
    {
      match f
      case InitFlags => initFlags := Some(Utils.StrJoin(initFlags, word, " "));
      case DriverFlags => driverFlags := Some(Utils.StrJoin(driverFlags, word, " "));
      case DeviceFlags => deviceFlags := Some(Utils.StrJoin(deviceFlags, word, " "));
      case ContainerFlags => containerFlags := Some(Utils.StrJoin(containerFlags, word, " "));
    }

    /** The 'r' option: `reqs[nreqs++] = arg`, or "too many requirements" once full. */
    method AddRequirement(arg: string) returns (reply: Reply)
      requires Valid()
      modifies this, reqs
      ensures Valid() && (reply, Value()) == Stored(old(Value()), reqs.Length, arg)
    {
      if nreqs >= reqs.Length {
        return Fatal("too many requirements");
      }
      reqs[nreqs] := arg;
      nreqs := nreqs + 1;
      assert reqs[..nreqs] == old(reqs[..nreqs]) + [arg];
      reply := Handled;
    }
  }

  /**
   * The message of the first requirement that does not hold, in order, with the evaluator
   * given; None when all hold.
   */
  function FirstFailure(reqs: seq<string>, eval: string -> Dsl.Outcome): Option<string>
  {
    if reqs == [] then None
    else if eval(reqs[0]).Satisfied? then FirstFailure(reqs[1..], eval)
    else Dsl.Message(eval(reqs[0]))
  }

  /**
   * Requirements are checked in order and the first failure decides: none is reported
   * exactly when all hold, and a reported one belongs to a failing requirement after only
   * holding ones.
   */
  lemma {:induction false} FirstFailureMeaning(reqs: seq<string>, eval: string -> Dsl.Outcome)
    ensures FirstFailure(reqs, eval).None? <==> forall j :: 0 <= j < |reqs| ==> eval(reqs[j]).Satisfied?
    ensures FirstFailure(reqs, eval).Some? ==>
      exists k :: 0 <= k < |reqs| && !eval(reqs[k]).Satisfied? &&
        (forall j :: 0 <= j < k ==> eval(reqs[j]).Satisfied?) &&
        FirstFailure(reqs, eval) == Dsl.Message(eval(reqs[k]))
    decreases |reqs|
  {
    if reqs != [] {
      FirstFailureMeaning(reqs[1..], eval);
      if eval(reqs[0]).Satisfied? {
        if FirstFailure(reqs, eval).Some? {
          var k :| 0 <= k < |reqs[1..]| && !eval(reqs[1..][k]).Satisfied? &&
            (forall j :: 0 <= j < k ==> eval(reqs[1..][j]).Satisfied?) &&
            FirstFailure(reqs[1..], eval) == Dsl.Message(eval(reqs[1..][k]));
          assert forall j :: 0 <= j < k + 1 ==> eval(reqs[j]).Satisfied? by {
            forall j | 0 <= j < k + 1 ensures eval(reqs[j]).Satisfied? {
              if j > 0 { assert reqs[j] == reqs[1..][j - 1]; }
            }
          }
          assert reqs[k + 1] == reqs[1..][k];
        } else {
          forall j | 0 <= j < |reqs| ensures eval(reqs[j]).Satisfied? {
            if j > 0 { assert reqs[j] == reqs[1..][j - 1]; }
          }
        }
      } else {
        assert FirstFailure(reqs, eval) == Dsl.Message(eval(reqs[0]));
      }
    }
  }

  /** A failing requirement always leaves a message. */
  lemma MessageOfFailure(o: Dsl.Outcome)
    ensures Dsl.Message(o).None? <==> o.Satisfied?
  {
  }
}
