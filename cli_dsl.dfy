/**
 * The requirement language of nvidia-container-cli (src/cli/dsl.c): a predicate is a
 * space-separated list of alternatives, each a comma-separated list of terms
 * `name op value`; it holds when some alternative has all its terms true. Rules are
 * looked up by name, ignoring case, and decide a term through a comparison function.
 */
module CliDsl {
  import opened Wrappers
  import Text
  import opened Dsl

  /** EXPR_MAX: the size of the buffer that keeps the failing term for the error message. */
  const ExprMax: nat := 128

  /** dsl_compare_string: equality and inequality ignoring case; other comparators are unsupported. */
  function CompareString(s1: string, cmp: Comparator, s2: string): (r: int)
    ensures r == -1 <==> cmp != Equal && cmp != NotEqual
    ensures cmp == Equal ==> (r == 1 <==> Text.CaseEqual(s1, s2))
    ensures cmp == NotEqual ==> (r == 1 <==> !Text.CaseEqual(s1, s2))
  {
    if cmp == Equal then (if Text.CaseEqual(s1, s2) then 1 else 0)
    else if cmp == NotEqual then (if Text.CaseEqual(s1, s2) then 0 else 1)
    else -1
  }

  /** `=` and `!=` are complementary and neither depends on the order of the operands. */
  lemma CompareStringComplement(s1: string, s2: string)
    ensures CompareString(s1, Equal, s2) + CompareString(s1, NotEqual, s2) == 1
    ensures CompareString(s1, Equal, s2) == CompareString(s2, Equal, s1)
  {
  }

  /** Index of the first rule whose name equals `name` ignoring case, or |rules|. */
  function RuleIndex(rules: seq<Rule>, name: string): (k: nat)
    ensures k <= |rules|
    ensures k < |rules| ==> Text.CaseEqual(name, rules[k].name)
    ensures forall j :: 0 <= j < k ==> !Text.CaseEqual(name, rules[j].name)
    decreases |rules|
  {
    if rules == [] then 0
    else if Text.CaseEqual(name, rules[0].name) then 0
    else 1 + RuleIndex(rules[1..], name)
  }

  /** evaluate_rule on one term. */
  function RuleResult(expr: string, rules: seq<Rule>): (r: RuleOutcome)
    ensures r.Unmet? ==> |r.text| < ExprMax
  {
    match ParseTerm(expr)
    case None => Malformed
    case Some(t) => Verdict(t, rules)
  }

  /**
   * The second half of evaluate_rule, on a parsed term: the first rule of that name, in
   * any case, decides it; the text of a false term must fit in the buffer.
   */
  function Verdict(t: Term, rules: seq<Rule>): (r: RuleOutcome)
    requires t.op < |Operators|
    ensures r.Unmet? ==> |r.text| < ExprMax
  {
    var k := RuleIndex(rules, t.name);
    if k == |rules| then Malformed
    else
      var ret := rules[k].check(Operators[t.op].1, t.value);
      if ret < 0 then Malformed
      else if ret > 0 then Met
      else if |Formatted(t)| >= ExprMax then Malformed
      else Unmet(Formatted(t))
  }

  /**
   * A term written `name op value` is decided by the first rule with that name, whatever
   * the case of its letters; a false term is reported in the spaced form when it fits.
   */
  lemma RuleOfTerm(t: Term, rules: seq<Rule>, k: nat)
    requires t.op < |Operators| && t.name != [] && t.value != []
    requires forall c :: c in t.name ==> c !in OperatorChars
    requires t.value[0] !in OperatorChars
    requires k < |rules| && Text.CaseEqual(t.name, rules[k].name)
    requires forall j :: 0 <= j < k ==> !Text.CaseEqual(t.name, rules[j].name)
    ensures var ret := rules[k].check(Operators[t.op].1, t.value);
      RuleResult(t.name + Operators[t.op].0 + t.value, rules) ==
        if ret < 0 then Malformed
        else if ret > 0 then Met
        else if |Formatted(t)| >= ExprMax then Malformed
        else Unmet(Formatted(t))
  {
    ParseTermRoundTrip(t);
    assert RuleIndex(rules, t.name) == k;
  }

  /** A term whose name no rule carries is malformed. */
  lemma UnknownRule(expr: string, rules: seq<Rule>)
    requires ParseTerm(expr).Some?
    requires forall j :: 0 <= j < |rules| ==> !Text.CaseEqual(ParseTerm(expr).value.name, rules[j].name)
    ensures RuleResult(expr, rules) == Malformed
  {
    assert RuleIndex(rules, ParseTerm(expr).value.name) == |rules|;
  }

  /** The rule lookup of evaluate_rule, as the loop it is. */
  method FindRule(rules: seq<Rule>, name: string) returns (k: nat)
    ensures k == RuleIndex(rules, name)
  {
    k := 0;
    while k < |rules| && !Text.CaseEqual(name, rules[k].name)
      invariant k <= |rules|
      invariant forall j :: 0 <= j < k ==> !Text.CaseEqual(name, rules[j].name)
    {
      k := k + 1;
    }
  }

  /** evaluate_rule: the operator-table search and the rule lookup as the loops they are. */
  method EvaluateRule(expr: string, rules: seq<Rule>) returns (r: RuleOutcome)
    ensures r == RuleResult(expr, rules)
  {
    var n := Text.CSpan(expr, OperatorChars);
    if n == 0 {
      return Malformed;
    }
    var m := Text.Span(expr[n..], OperatorChars);
    if m == 0 {
      return Malformed;
    }
    var i := FindOperator(expr[n..n + m]);
    if i == |Operators| || n + m == |expr| {
      return Malformed;
    }
    var t := Term(expr[..n], i, expr[n + m..]);
    assert ParseTerm(expr) == Some(t);
    r := Judge(t, rules);
  }

  /** The rule lookup and the call of the rule's function in evaluate_rule. */
  method Judge(t: Term, rules: seq<Rule>) returns (r: RuleOutcome)
    requires t.op < |Operators|
    ensures r == Verdict(t, rules)
  {
    var k := FindRule(rules, t.name);
    if k == |rules| {
      return Malformed;
    }
    var ret := rules[k].check(Operators[t.op].1, t.value);
    if ret < 0 {
      r := Malformed;
    } else if ret > 0 {
      r := Met;
    } else if |Formatted(t)| >= ExprMax {
      r := Malformed;
    } else {
      r := Unmet(Formatted(t));
    }
  }

  /**
   * What the inner strsep loop leaves: an abort on a malformed term, a stop at the first
   * false term (its text is in buf), or the end of the list with the current `ret`.
   */
  datatype Step = Abort | Stopped(text: string) | Completed(failed: Option<string>)

  /** The inner loop over the conjuncts of one alternative, empty pieces skipped. */
  function Conjunction(conjuncts: seq<string>, rules: seq<Rule>, ret: Ret): Step
    decreases |conjuncts|
  {
    if conjuncts == [] then Completed(ret)
    else if conjuncts[0] == "" then Conjunction(conjuncts[1..], rules, ret)
    else
      match RuleResult(conjuncts[0], rules)
      case Malformed => Abort
      case Unmet(text) => Stopped(text)
      case Met => Conjunction(conjuncts[1..], rules, None)
  }

  /** The outer loop over the alternatives, empty pieces skipped. */
  function Disjunction(alternatives: seq<string>, rules: seq<Rule>, ret: Ret): Outcome
    decreases |alternatives|
  {
    if alternatives == [] then Final(ret)
    else if alternatives[0] == "" then Disjunction(alternatives[1..], rules, ret)
    else
      match Conjunction(Text.Split(alternatives[0], ','), rules, ret)
      case Abort => Invalid
      case Stopped(text) => Disjunction(alternatives[1..], rules, Some(text))
      case Completed(r) => Final(r)
  }

  /** dsl_evaluate on a predicate. */
  function Evaluation(pred: string, rules: seq<Rule>): Outcome
  {
    Disjunction(Text.Split(pred, ' '), rules, None)
  }

  /** Every non-empty piece of `terms` is a term the rules can decide. */
  predicate Decided(terms: seq<string>, rules: seq<Rule>)
  {
    forall i :: 0 <= i < |terms| ==> terms[i] == "" || !RuleResult(terms[i], rules).Malformed?
  }

  /** Every non-empty piece of `terms` is a true term. */
  predicate AllTrue(terms: seq<string>, rules: seq<Rule>)
  {
    forall i :: 0 <= i < |terms| ==> terms[i] == "" || RuleResult(terms[i], rules).Met?
  }

  predicate SomeTerm(terms: seq<string>)
  {
    exists i :: 0 <= i < |terms| && terms[i] != ""
  }

  /**
   * One alternative with decidable terms: it runs to the end exactly when all its terms
   * are true, and then `ret` is true unless the alternative held no term at all.
   */
  lemma {:induction false} ConjunctionMeaning(terms: seq<string>, rules: seq<Rule>, ret: Ret)
    requires Decided(terms, rules)
    ensures Conjunction(terms, rules, ret) != Abort
    ensures Conjunction(terms, rules, ret).Completed? <==> AllTrue(terms, rules)
    ensures Conjunction(terms, rules, ret).Completed? ==>
      Conjunction(terms, rules, ret).failed == (if SomeTerm(terms) then None else ret)
    decreases |terms|
  {
    if terms != [] {
      var rest := terms[1..];
      DecidedTail(terms, rules);
      AllTrueCons(terms, rules);
      SomeTermCons(terms);
      if terms[0] == "" {
        ConjunctionMeaning(rest, rules, ret);
      } else if RuleResult(terms[0], rules).Met? {
        ConjunctionMeaning(rest, rules, None);
      }
    }
  }

  /** The three properties of a term list, split into its first piece and the rest. */
  lemma DecidedTail(terms: seq<string>, rules: seq<Rule>)
    requires terms != [] && Decided(terms, rules)
    ensures Decided(terms[1..], rules)
  {
    var rest := terms[1..];
    forall i | 0 <= i < |rest| ensures rest[i] == "" || !RuleResult(rest[i], rules).Malformed? {
      assert rest[i] == terms[i + 1];
    }
  }

  lemma AllTrueCons(terms: seq<string>, rules: seq<Rule>)
    requires terms != []
    ensures AllTrue(terms, rules) <==>
      (terms[0] == "" || RuleResult(terms[0], rules).Met?) && AllTrue(terms[1..], rules)
  {
    var rest := terms[1..];
    if AllTrue(terms, rules) {
      forall i | 0 <= i < |rest| ensures rest[i] == "" || RuleResult(rest[i], rules).Met? {
        assert rest[i] == terms[i + 1];
      }
    }
    if (terms[0] == "" || RuleResult(terms[0], rules).Met?) && AllTrue(rest, rules) {
      forall i | 0 <= i < |terms| ensures terms[i] == "" || RuleResult(terms[i], rules).Met? {
        if i > 0 { assert terms[i] == rest[i - 1]; }
      }
    }
  }

  lemma SomeTermCons(terms: seq<string>)
    requires terms != []
    ensures SomeTerm(terms) <==> terms[0] != "" || SomeTerm(terms[1..])
  {
    var rest := terms[1..];
    if SomeTerm(terms) {
      var i :| 0 <= i < |terms| && terms[i] != "";
      if i > 0 { assert rest[i - 1] == terms[i]; }
    }
    if SomeTerm(rest) {
      var i :| 0 <= i < |rest| && rest[i] != "";
      assert terms[i + 1] == rest[i];
    }
  }


  /** The alternatives of a predicate, and the terms of one alternative. */
  function Alternatives(pred: string): seq<string> { Text.Split(pred, ' ') }

  function Terms(alternative: string): seq<string> { Text.Split(alternative, ',') }

  /** Every non-empty alternative has at least one term, and all its terms are decidable. */
  predicate Regular(alternatives: seq<string>, rules: seq<Rule>)
  {
    forall a :: 0 <= a < |alternatives| && alternatives[a] != "" ==>
      Decided(Terms(alternatives[a]), rules) && SomeTerm(Terms(alternatives[a]))
  }

  /** Some non-empty alternative has only true terms. */
  predicate SomeAllTrue(alternatives: seq<string>, rules: seq<Rule>)
  {
    exists a :: 0 <= a < |alternatives| && alternatives[a] != "" && AllTrue(Terms(alternatives[a]), rules)
  }

  predicate AllEmpty(alternatives: seq<string>)
  {
    forall a :: 0 <= a < |alternatives| ==> alternatives[a] == ""
  }

  lemma {:induction false} DisjunctionMeaning(alternatives: seq<string>, rules: seq<Rule>, ret: Ret)
    requires Regular(alternatives, rules)
    ensures Disjunction(alternatives, rules, ret) != Invalid
    ensures Disjunction(alternatives, rules, ret).Satisfied? <==>
      SomeAllTrue(alternatives, rules) || (ret.None? && AllEmpty(alternatives))
    decreases |alternatives|
  {
    if alternatives != [] {
      var rest := alternatives[1..];
      var first := alternatives[0];
      AlternativesCons(alternatives, rules);
      if first == "" {
        DisjunctionMeaning(rest, rules, ret);
      } else {
        ConjunctionMeaning(Terms(first), rules, ret);
        if !AllTrue(Terms(first), rules) {
          DisjunctionMeaning(rest, rules, Some(Conjunction(Terms(first), rules, ret).text));
        }
      }
    }
  }

  /** The properties of a list of alternatives, split into its first piece and the rest. */
  lemma AlternativesCons(alternatives: seq<string>, rules: seq<Rule>)
    requires alternatives != []
    ensures Regular(alternatives, rules) ==> Regular(alternatives[1..], rules)
    ensures SomeAllTrue(alternatives, rules) <==>
      (alternatives[0] != "" && AllTrue(Terms(alternatives[0]), rules)) || SomeAllTrue(alternatives[1..], rules)
    ensures AllEmpty(alternatives) <==> alternatives[0] == "" && AllEmpty(alternatives[1..])
  {
    var rest := alternatives[1..];
    assert forall a :: 0 <= a < |rest| ==> rest[a] == alternatives[a + 1];
    if SomeAllTrue(alternatives, rules) {
      var a :| 0 <= a < |alternatives| && alternatives[a] != "" && AllTrue(Terms(alternatives[a]), rules);
      if a > 0 { assert rest[a - 1] == alternatives[a]; }
    }
    if alternatives[0] == "" && AllEmpty(rest) {
      forall a | 0 <= a < |alternatives| ensures alternatives[a] == "" {
        if a > 0 { assert alternatives[a] == rest[a - 1]; }
      }
    }
  }

  /**
   * Read as an OR of ANDs: when every alternative has terms and all of them are decidable,
   * the predicate is satisfied exactly when it has no alternative at all or some alternative
   * has only true terms; otherwise the condition is reported unsatisfied, never invalid.
   */
  lemma EvaluationMeaning(pred: string, rules: seq<Rule>)
    requires Regular(Alternatives(pred), rules)
    ensures Evaluation(pred, rules) != Invalid
    ensures Evaluation(pred, rules).Satisfied? <==>
      SomeAllTrue(Alternatives(pred), rules) || AllEmpty(Alternatives(pred))
  {
    DisjunctionMeaning(Alternatives(pred), rules, None);
  }

  /**
   * An alternative made only of commas ends the search with the `ret` the previous
   * alternative left: after a false term it reports that term, whatever follows.
   */
  lemma CommaOnlyAlternative(pred: string, x: string, rest: seq<string>, rules: seq<Rule>, text: string)
    requires Alternatives(pred) == [x, ","] + rest
    requires ',' !in x && RuleResult(x, rules) == Unmet(text)
    ensures Evaluation(pred, rules) == Unsatisfied(text)
  {
    var alternatives := Alternatives(pred);
    Text.SplitNoSeparator(x, ',');
    assert Conjunction(Terms(x), rules, None) == Stopped(text) by {
      assert Terms(x) == [x] && [x][1..] == [];
    }
    var tail := alternatives[1..];
    assert tail[0] == "," && tail[0] != "";
    assert Conjunction(Terms(","), rules, Some(text)) == Completed(Some(text)) by {
      BareComma();
      assert ["", ""][1..] == [""] && [""][1..] == [];
    }
    assert Disjunction(tail, rules, Some(text)) == Unsatisfied(text);
    assert x != [];
    assert Disjunction(alternatives, rules, None) == Disjunction(tail, rules, Some(text));
  }

  lemma BareComma()
    ensures Terms(",") == ["", ""]
  {
    assert "," == [] + [','] + [];
    Text.SplitConcat([], ',', []);
  }

  /**
   * dsl_evaluate: strsep over a copy of the predicate, alternatives on ' ' and terms on
   * ','. The predicate itself is a value and stays as it was.
   */
  method DslEvaluate(pred: string, rules: seq<Rule>) returns (o: Outcome)
    ensures o == Evaluation(pred, rules)
  {
    var ptr := Some(pred);
    var ret: Ret := None;
    while true
      invariant Disjunction(Text.Pieces(ptr, ' '), rules, ret) == Evaluation(pred, rules)
      decreases Text.Remaining(ptr)
    {
      var orExpr;
      orExpr, ptr := Text.Strsep(ptr, ' ');
      if orExpr.None? {
        break;
      }
      var alternative := orExpr.value;
      if alternative == "" {
        continue;
      }
      var andPtr := orExpr;
      var stopped := false;
      ghost var start := ret;
      while true
        invariant !stopped
        invariant Conjunction(Text.Pieces(andPtr, ','), rules, ret) == Conjunction(Text.Split(alternative, ','), rules, start)
        decreases Text.Remaining(andPtr)
      {
        var andExpr;
        andExpr, andPtr := Text.Strsep(andPtr, ',');
        if andExpr.None? {
          break;
        }
        if andExpr.value == "" {
          continue;
        }
        var r := EvaluateRule(andExpr.value, rules);
        match r
        case Malformed =>
          return Invalid;
        case Unmet(text) =>
          ret := Some(text);
          stopped := true;
          break;
        case Met =>
          ret := None;
      }
      if !stopped {
        break;
      }
    }
    o := Final(ret);
  }
}
