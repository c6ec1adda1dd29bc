/**
 * The pieces both requirement-language evaluators share (src/cli/dsl.c and src/dsl.c):
 * the comparator table, the split of a term into name, operator and value, and the
 * dotted-version comparison. The two dsl_compare_version functions are the same code;
 * uintmax_t and unsigned long are both 64 bits wide on the LP64 targets the library is
 * built for, so both saturate at 2^64 - 1.
 */
module Dsl {
  import opened Wrappers
  import Text

  datatype Comparator = Equal | NotEqual | Less | LessEqual | Greater | GreaterEqual

  /** The operator table, in the order evaluate_rule searches it. */
  const Operators: seq<(string, Comparator)> :=
    [("=", Equal), ("!=", NotEqual), ("<", Less), ("<=", LessEqual), (">", Greater), (">=", GreaterEqual)]

  const OperatorChars: set<char> := {'<', '>', '=', '!'}

  /**
   * The first table entry that strncmp(run, entry, |run|) accepts: an entry no shorter
   * than the run that starts with it. |Operators| when there is none.
   */
  function OperatorIndex(run: string): (i: nat)
    ensures i <= |Operators|
    ensures i < |Operators| ==> run <= Operators[i].0
    ensures forall j :: 0 <= j < i ==> !(run <= Operators[j].0)
  {
    if run <= "=" then 0
    else if run <= "!=" then 1
    else if run <= "<" then 2
    else if run <= "<=" then 3
    else if run <= ">" then 4
    else if run <= ">=" then 5
    else 6
  }

  /** The search of evaluate_rule through the operator table, as the loop it is. */
  method FindOperator(run: string) returns (i: nat)
    ensures i == OperatorIndex(run)
  {
    i := 0;
    while i < |Operators| && !(run <= Operators[i].0)
      invariant i <= |Operators|
      invariant forall j :: 0 <= j < i ==> !(run <= Operators[j].0)
    {
      i := i + 1;
    }
  }

  /** Each operator as written selects its own table entry. */
  lemma OperatorIndexOfEntry(i: nat)
    requires i < |Operators|
    ensures OperatorIndex(Operators[i].0) == i
  {
    assert "="[0] == '=' && "!="[0] == '!' && "<"[0] == '<' && "<="[0] == '<' && ">"[0] == '>';
    assert "<="[1] == '=' && ">="[1] == '=';
  }

  /** A lone `!` is accepted as `!=`, because strncmp compares only the run's length. */
  lemma BangIsNotEqual()
    ensures OperatorIndex("!") == 1 && Operators[1].1 == NotEqual
  {
    assert "!"[0] == '!' && "="[0] == '=' && "!="[..1] == "!";
  }

  /** Any other run of operator characters is rejected, for example `==` and `=<`. */
  lemma UnknownOperators()
    ensures OperatorIndex("==") == |Operators| && OperatorIndex("=<") == |Operators|
    ensures OperatorIndex("<>") == |Operators| && OperatorIndex("!!") == |Operators|
  {
    assert "<>"[1] == '>' && "<="[1] == '=' && "!!"[1] == '!' && "!="[1] == '=';
    assert "=="[1] == '=' && "=<"[1] == '<' && "<"[0] == '<' && ">"[0] == '>';
    assert "=="[0] == '=' && "=<"[0] == '=' && "<>"[0] == '<' && "!!"[0] == '!';
    assert "<="[0] == '<' && ">="[0] == '>' && ">="[1] == '=';
  }

  /** A term `name op value` as evaluate_rule splits it. */
  datatype Term = Term(name: string, op: nat, value: string)

  /**
   * The parse at the top of evaluate_rule: a non-empty name free of operator characters,
   * a run of operator characters naming a table entry, and a non-empty value.
   */
  function ParseTerm(expr: string): (r: Option<Term>)
    ensures r.Some? ==>
      r.value.op < |Operators| && r.value.name != [] && r.value.value != [] &&
      (forall c :: c in r.value.name ==> c !in OperatorChars)
  {
    var n := Text.CSpan(expr, OperatorChars);
    if n == 0 then None
    else
      var m := Text.Span(expr[n..], OperatorChars);
      if m == 0 then None
      else
        var i := OperatorIndex(expr[n..n + m]);
        if i == |Operators| || n + m == |expr| then None
        else Some(Term(expr[..n], i, expr[n + m..]))
  }

  /** An operator of the table followed by a value that does not start with one is a run of its own length. */
  lemma {:induction false} OperatorRun(i: nat, value: string)
    requires i < |Operators| && value != [] && value[0] !in OperatorChars
    ensures Text.Span(Operators[i].0 + value, OperatorChars) == |Operators[i].0|
  {
    var op := Operators[i].0;
    assert forall k :: 0 <= k < |op| ==> op[k] in OperatorChars;
    var s := op + value;
    assert forall k :: 0 <= k < |op| ==> s[k] == op[k];
    assert s[|op|] == value[0];
    Text.SpanIs(s, OperatorChars, |op|);
  }

  /** Writing a term back out with its operator reads back as the same term. */
  lemma {:induction false} ParseTermRoundTrip(t: Term)
    requires t.op < |Operators| && t.name != [] && t.value != []
    requires forall c :: c in t.name ==> c !in OperatorChars
    requires t.value[0] !in OperatorChars
    ensures ParseTerm(t.name + Operators[t.op].0 + t.value) == Some(t)
  {
    var op := Operators[t.op].0;
    var rest := op + t.value;
    var s := t.name + rest;
    assert t.name + op + t.value == s;
    OperatorRun(t.op, t.value);
    NameRun(t.name, rest);
    Pieces(t.name, op, t.value);
    OperatorIndexOfEntry(t.op);
  }

  /** A name free of operator characters, followed by one, is the leading run of its own length. */
  lemma NameRun(name: string, rest: string)
    requires forall c :: c in name ==> c !in OperatorChars
    requires rest != [] && rest[0] in OperatorChars
    ensures Text.CSpan(name + rest, OperatorChars) == |name|
  {
    var s := name + rest;
    assert forall k :: 0 <= k < |name| ==> s[k] == name[k];
    assert s[|name|] == rest[0];
    Text.CSpanIs(s, OperatorChars, |name|);
  }

  /** The slices ParseTerm takes of `name + op + value`. */
  lemma Pieces(name: string, op: string, value: string)
    ensures var s := name + (op + value);
      s[|name|..] == op + value && s[|name|..|name| + |op|] == op &&
      s[..|name|] == name && s[|name| + |op|..] == value
  {
  }

  /** A named rule of the requirement language; its function sees the comparator and the value. */
  datatype Rule = Rule(name: string, check: (Comparator, string) -> int)

  /** What evaluate_rule makes of one term. */
  datatype RuleOutcome =
    | Met                   // the rule returned a non-zero, non-negative value
    | Unmet(text: string)   // the rule returned 0; `text` is the term as saved for the message
    | Malformed             // -1: unparsable term, unknown rule, rule error or message too long

  /** The term as snprintf(buf, EXPR_MAX, "%s %s %s", ...) writes it. */
  function Formatted(t: Term): string
    requires t.op < |Operators|
  {
    t.name + " " + Operators[t.op].0 + " " + t.value
  }

  /** How dsl_evaluate returns. */
  datatype Outcome = Satisfied | Invalid | Unsatisfied(expr: string)

  /** The C variable `ret` together with buf: None while it is true, Some(text) once a term was false. */
  type Ret = Option<string>

  /** The verdict after the last alternative: `ret` decides. */
  function Final(ret: Ret): Outcome
  {
    if ret.None? then Satisfied else Unsatisfied(ret.value)
  }

  /** The return value of dsl_evaluate and the message it leaves in the error. */
  function Status(o: Outcome): int
  {
    if o.Satisfied? then 0 else -1
  }

  function Message(o: Outcome): Option<string>
  {
    match o
    case Satisfied => None
    case Invalid => Some("invalid expression")
    case Unsatisfied(text) => Some("unsatisfied condition: " + text)
  }

  const VersionChars: set<char> := Text.Digits + {'.'}
  const ZeroOrDot: set<char> := {'.', '0'}

  /** UINTMAX_MAX (and ULONG_MAX) on LP64: strtoumax's saturated result on overflow. */
  const NumMax: nat := Text.UMaxMax

  /** The verdict once two components differ. */
  function Decide(cmp: Comparator, n1: nat, n2: nat): int
  {
    match cmp
    case Equal => 0
    case NotEqual => 1
    case Less => if n1 < n2 then 1 else 0
    case LessEqual => if n1 < n2 then 1 else 0
    case Greater => if n1 > n2 then 1 else 0
    case GreaterEqual => if n1 > n2 then 1 else 0
  }

  /** The verdict when all compared components agreed; `done` says a side has only dots and zeros left. */
  function Finish(cmp: Comparator, done1: bool, done2: bool): int
  {
    match cmp
    case NotEqual => if !done1 || !done2 then 1 else 0
    case Equal => if done1 && done2 then 1 else 0
    case LessEqual => if done1 && done2 then 1 else if done1 && !done2 then 1 else 0
    case GreaterEqual => if done1 && done2 then 1 else if !done1 && done2 then 1 else 0
    case Less => if done1 && !done2 then 1 else 0
    case Greater => if !done1 && done2 then 1 else 0
  }

  function SkipDots(s: string): (r: string)
    ensures |r| <= |s|
  {
    s[Text.Span(s, {'.'})..]
  }

  /** The component walk of dsl_compare_version, from the current positions on. */
  function Walk(v1: string, cmp: Comparator, v2: string): (r: int)
    ensures -1 <= r <= 1
    decreases |v1|
  {
    if v1 == [] || v2 == [] then
      Finish(cmp, Text.Span(v1, ZeroOrDot) == |v1|, Text.Span(v2, ZeroOrDot) == |v2|)
    else
      var (n1, l1) := Text.StrToUMax(v1);
      var (n2, l2) := Text.StrToUMax(v2);
      if n1 == NumMax || l1 == 0 then -1
      else if n2 == NumMax || l2 == 0 then -1
      else if n1 != n2 then Decide(cmp, n1, n2)
      else Walk(SkipDots(v1[l1..]), cmp, SkipDots(v2[l2..]))
  }

  /**
   * dsl_compare_version: -1 for a malformed operand, otherwise 1 when `v1 cmp v2` holds
   * and 0 when it does not.
   */
  function CompareVersion(v1: string, cmp: Comparator, v2: string): (r: int)
    ensures -1 <= r <= 1
    ensures Text.Span(v1, VersionChars) != |v1| || Text.Span(v2, VersionChars) != |v2| ==> r == -1
  {
    if Text.Span(v1, VersionChars) != |v1| || Text.Span(v2, VersionChars) != |v2| then -1
    else Walk(v1, cmp, v2)
  }

  /** The walk on two non-empty operands, case by case. */
  lemma WalkCases(s1: string, cmp: Comparator, s2: string)
    requires s1 != [] && s2 != []
    ensures Text.StrToUMax(s1).0 == NumMax || Text.StrToUMax(s1).1 == 0 ==> Walk(s1, cmp, s2) == -1
    ensures Text.StrToUMax(s2).0 == NumMax || Text.StrToUMax(s2).1 == 0 ==> Walk(s1, cmp, s2) == -1
    ensures Text.StrToUMax(s1).0 != NumMax && Text.StrToUMax(s1).1 != 0 && Text.StrToUMax(s2).0 != NumMax &&
            Text.StrToUMax(s2).1 != 0 && Text.StrToUMax(s1).0 != Text.StrToUMax(s2).0
            ==> Walk(s1, cmp, s2) == Decide(cmp, Text.StrToUMax(s1).0, Text.StrToUMax(s2).0)
  {
  }

  lemma WalkEnd(s1: string, cmp: Comparator, s2: string)
    requires s1 == [] || s2 == []
    ensures Walk(s1, cmp, s2) == Finish(cmp, Text.Span(s1, ZeroOrDot) == |s1|, Text.Span(s2, ZeroOrDot) == |s2|)
  {
  }

  /** One step of the walk when the two components are equal and well formed. */
  lemma WalkUnfold(s1: string, cmp: Comparator, s2: string)
    requires s1 != [] && s2 != []
    requires Text.StrToUMax(s1).0 == Text.StrToUMax(s2).0
    requires Text.StrToUMax(s1).0 != NumMax && Text.StrToUMax(s1).1 > 0 && Text.StrToUMax(s2).1 > 0
    ensures Walk(s1, cmp, s2) == Walk(SkipDots(s1[Text.StrToUMax(s1).1..]), cmp, SkipDots(s2[Text.StrToUMax(s2).1..]))
  {
  }

  /** dsl_compare_version, advancing a pointer into each operand. */
  method DslCompareVersion(v1: string, cmp: Comparator, v2: string) returns (r: int)
    ensures r == CompareVersion(v1, cmp, v2)
  {
    if Text.Span(v1, VersionChars) != |v1| {
      return -1;
    }
    if Text.Span(v2, VersionChars) != |v2| {
      return -1;
    }
    // p1 and p2 are the C pointers, each held as the suffix it points at.
    var p1, p2 := v1, v2;
    while p1 != [] && p2 != []
      invariant Walk(p1, cmp, p2) == Walk(v1, cmp, v2)
      decreases |p1|
    {
      WalkCases(p1, cmp, p2);
      var (n1, l1) := Text.StrToUMax(p1);
      if n1 == NumMax || l1 == 0 {
        return -1;
      }
      var (n2, l2) := Text.StrToUMax(p2);
      if n2 == NumMax || l2 == 0 {
        return -1;
      }
      if n1 != n2 {
        return Decide(cmp, n1, n2);
      }
      WalkUnfold(p1, cmp, p2);
      p1, p2 := SkipDots(p1[l1..]), SkipDots(p2[l2..]);
    }
    WalkEnd(p1, cmp, p2);
    var done1 := Text.Span(p1, ZeroOrDot) == |p1|;
    var done2 := Text.Span(p2, ZeroOrDot) == |p2|;
    r := Finish(cmp, done1, done2);
  }

  /** The comparator with its operands exchanged. */
  function Swap(cmp: Comparator): Comparator
  {
    match cmp
    case Equal => Equal
    case NotEqual => NotEqual
    case Less => Greater
    case LessEqual => GreaterEqual
    case Greater => Less
    case GreaterEqual => LessEqual
  }

  /** Exchanging the operands and the comparator's direction gives the same answer. */
  lemma {:induction false} WalkSwap(v1: string, cmp: Comparator, v2: string)
    ensures Walk(v1, cmp, v2) == Walk(v2, Swap(cmp), v1)
    decreases |v1|
  {
    if v1 != [] && v2 != [] {
      var (n1, l1) := Text.StrToUMax(v1);
      var (n2, l2) := Text.StrToUMax(v2);
      if n1 != NumMax && l1 != 0 && n2 != NumMax && l2 != 0 && n1 == n2 {
        WalkSwap(SkipDots(v1[l1..]), cmp, SkipDots(v2[l2..]));
      }
    }
  }

  lemma CompareVersionSwap(v1: string, cmp: Comparator, v2: string)
    ensures CompareVersion(v1, cmp, v2) == CompareVersion(v2, Swap(cmp), v1)
  {
    WalkSwap(v1, cmp, v2);
  }

  /** Whether an operand is malformed does not depend on the comparator. */
  lemma {:induction false} WalkMalformed(v1: string, c1: Comparator, c2: Comparator, v2: string)
    ensures Walk(v1, c1, v2) == -1 <==> Walk(v1, c2, v2) == -1
    decreases |v1|
  {
    if v1 != [] && v2 != [] {
      var (n1, l1) := Text.StrToUMax(v1);
      var (n2, l2) := Text.StrToUMax(v2);
      if n1 != NumMax && l1 != 0 && n2 != NumMax && l2 != 0 && n1 == n2 {
        WalkMalformed(SkipDots(v1[l1..]), c1, c2, SkipDots(v2[l2..]));
      }
    }
  }

  /**
   * On well-formed operands `!=` is the negation of `=`, and `<=` (`>=`) holds exactly
   * when `<` (`>`) or `=` does.
   */
  lemma {:induction false} WalkConnectives(v1: string, v2: string)
    ensures Walk(v1, Equal, v2) != -1 ==> Walk(v1, NotEqual, v2) == 1 - Walk(v1, Equal, v2)
    ensures Walk(v1, LessEqual, v2) == 1 <==> Walk(v1, Less, v2) == 1 || Walk(v1, Equal, v2) == 1
    ensures Walk(v1, GreaterEqual, v2) == 1 <==> Walk(v1, Greater, v2) == 1 || Walk(v1, Equal, v2) == 1
    decreases |v1|
  {
    if v1 != [] && v2 != [] {
      var (n1, l1) := Text.StrToUMax(v1);
      var (n2, l2) := Text.StrToUMax(v2);
      if n1 != NumMax && l1 != 0 && n2 != NumMax && l2 != 0 && n1 == n2 {
        WalkConnectives(SkipDots(v1[l1..]), SkipDots(v2[l2..]));
      }
    }
  }

  lemma CompareVersionConnectives(v1: string, v2: string)
    ensures CompareVersion(v1, Equal, v2) != -1 ==>
      CompareVersion(v1, NotEqual, v2) == 1 - CompareVersion(v1, Equal, v2)
    ensures CompareVersion(v1, LessEqual, v2) == 1 <==>
      CompareVersion(v1, Less, v2) == 1 || CompareVersion(v1, Equal, v2) == 1
    ensures CompareVersion(v1, GreaterEqual, v2) == 1 <==>
      CompareVersion(v1, Greater, v2) == 1 || CompareVersion(v1, Equal, v2) == 1
  {
    WalkConnectives(v1, v2);
  }

  /** A version never compares unequal to itself, nor less than itself. */
  lemma {:induction false} WalkReflexive(v: string)
    ensures Walk(v, Equal, v) != 0 && Walk(v, Less, v) != 1 && Walk(v, Greater, v) != 1
    decreases |v|
  {
    if v != [] {
      var (n, l) := Text.StrToUMax(v);
      if n != NumMax && l != 0 {
        WalkReflexive(SkipDots(v[l..]));
      }
    }
  }
}
