/**
 * The older requirement evaluator of libnvidia-container (src/dsl.c). It reads the same
 * language as src/cli/dsl.c, but matches rule names exactly, keeps 64 bytes for the
 * failing term, and succeeds as soon as one alternative runs to its end. The C code cuts
 * the caller's buffer in place; here the expression is a value.
 */
module LegacyDsl {
  import opened Wrappers
  import Text
  import opened Dsl

  /** EXPR_MAX of this variant. */
  const ExprMax: nat := 64

  /** Index of the first rule whose name is exactly `name` (strcmp), or |rules|. */
  function RuleIndex(rules: seq<Rule>, name: string): (k: nat)
    ensures k <= |rules|
    ensures k < |rules| ==> rules[k].name == name
    ensures forall j :: 0 <= j < k ==> rules[j].name != name
    decreases |rules|
  {
    if rules == [] then 0
    else if rules[0].name == name then 0
    else 1 + RuleIndex(rules[1..], name)
  }

  /** evaluate_rule on one term. */
  function RuleResult(expr: string, rules: seq<Rule>): (r: RuleOutcome)
    ensures r.Unmet? ==> |r.text| < ExprMax
  {
    match ParseTerm(expr)
    case None => Malformed
    case Some(t) => Verdict(t, rules)
  }

  /**
   * The second half of evaluate_rule, on a parsed term: the first rule of that exact name
   * decides it; the text of a false term must fit in the buffer.
   */
  function Verdict(t: Term, rules: seq<Rule>): (r: RuleOutcome)
    requires t.op < |Operators|
    ensures r.Unmet? ==> |r.text| < ExprMax
  {
    var k := RuleIndex(rules, t.name);
    if k == |rules| then Malformed
    else
      var ret := rules[k].check(Operators[t.op].1, t.value);
      if ret < 0 then Malformed
      else if ret > 0 then Met
      else if |Formatted(t)| >= ExprMax then Malformed
      else Unmet(Formatted(t))
  }

  /** The rule lookup of evaluate_rule, as the loop it is. */
  method FindRule(rules: seq<Rule>, name: string) returns (k: nat)
    ensures k == RuleIndex(rules, name)
  {
    k := 0;
    while k < |rules| && rules[k].name != name
      invariant k <= |rules|
      invariant forall j :: 0 <= j < k ==> rules[j].name != name
    {
      k := k + 1;
    }
  }

  /**
   * evaluate_rule on one term: the operator-table search and the rule lookup as the loops
   * they are.
   */
  method EvaluateRule(expr: string, rules: seq<Rule>) returns (r: RuleOutcome)
    ensures r == RuleResult(expr, rules)
  {
    var n := Text.CSpan(expr, OperatorChars);
    if n == 0 {
      return Malformed;
    }
    var m := Text.Span(expr[n..], OperatorChars);
    if m == 0 {
      return Malformed;
    }
    var i := FindOperator(expr[n..n + m]);
    if i == |Operators| || n + m == |expr| {
      return Malformed;
    }
    var t := Term(expr[..n], i, expr[n + m..]);
    assert ParseTerm(expr) == Some(t);
    r := Judge(t, rules);
  }

  /** The rule lookup and the call of the rule's function in evaluate_rule. */
  method Judge(t: Term, rules: seq<Rule>) returns (r: RuleOutcome)
    requires t.op < |Operators|
    ensures r == Verdict(t, rules)
  {
    var k := FindRule(rules, t.name);
    if k == |rules| {
      return Malformed;
    }
    var ret := rules[k].check(Operators[t.op].1, t.value);
    if ret < 0 {
      r := Malformed;
    } else if ret > 0 {
      r := Met;
    } else if |Formatted(t)| >= ExprMax {
      r := Malformed;
    } else {
      r := Unmet(Formatted(t));
    }
  }

  /** How the inner strsep loop ends: an abort, a stop at a false term, or its end. */
  datatype Step = Abort | Stopped(text: string) | Completed

  function Terms(alternative: string): seq<string> { Text.Split(alternative, ',') }

  function Alternatives(expr: string): seq<string> { Text.Split(expr, ' ') }

  /** The inner loop over the terms of one alternative, empty pieces skipped. */
  function Conjunction(terms: seq<string>, rules: seq<Rule>): Step
    decreases |terms|
  {
    if terms == [] then Completed
    else if terms[0] == "" then Conjunction(terms[1..], rules)
    else
      match RuleResult(terms[0], rules)
      case Malformed => Abort
      case Unmet(text) => Stopped(text)
      case Met => Conjunction(terms[1..], rules)
  }

  /** The outer loop over the alternatives: the first one that runs to its end succeeds. */
  function Disjunction(alternatives: seq<string>, rules: seq<Rule>, ret: Ret): Outcome
    decreases |alternatives|
  {
    if alternatives == [] then Final(ret)
    else if alternatives[0] == "" then Disjunction(alternatives[1..], rules, ret)
    else
      match Conjunction(Terms(alternatives[0]), rules)
      case Abort => Invalid
      case Stopped(text) => Disjunction(alternatives[1..], rules, Some(text))
      case Completed => Satisfied
  }

  /** dsl_evaluate on an expression. */
  function Evaluation(expr: string, rules: seq<Rule>): Outcome
  {
    Disjunction(Alternatives(expr), rules, None)
  }

  /** Every non-empty piece of `terms` is a term the rules can decide. */
  predicate Decided(terms: seq<string>, rules: seq<Rule>)
  {
    forall i :: 0 <= i < |terms| ==> terms[i] == "" || !RuleResult(terms[i], rules).Malformed?
  }

  /** Every non-empty piece of `terms` is a true term. */
  predicate AllTrue(terms: seq<string>, rules: seq<Rule>)
  {
    forall i :: 0 <= i < |terms| ==> terms[i] == "" || RuleResult(terms[i], rules).Met?
  }

  /** The two properties of a term list, split into its first piece and the rest. */
  lemma {:induction false} DecidedTail(terms: seq<string>, rules: seq<Rule>)
    requires terms != [] && Decided(terms, rules)
    ensures Decided(terms[1..], rules)
  {
    var rest := terms[1..];
    forall i | 0 <= i < |rest| ensures rest[i] == "" || !RuleResult(rest[i], rules).Malformed? {
      assert rest[i] == terms[i + 1];
    }
  }

  lemma {:induction false} AllTrueCons(terms: seq<string>, rules: seq<Rule>)
    requires terms != []
    ensures AllTrue(terms, rules) <==>
      (terms[0] == "" || RuleResult(terms[0], rules).Met?) && AllTrue(terms[1..], rules)
  {
    var rest := terms[1..];
    if AllTrue(terms, rules) {
      forall i | 0 <= i < |rest| ensures rest[i] == "" || RuleResult(rest[i], rules).Met? {
        assert rest[i] == terms[i + 1];
      }
    }
    if (terms[0] == "" || RuleResult(terms[0], rules).Met?) && AllTrue(rest, rules) {
      forall i | 0 <= i < |terms| ensures terms[i] == "" || RuleResult(terms[i], rules).Met? {
        if i > 0 { assert terms[i] == rest[i - 1]; }
      }
    }
  }


  /** One alternative with decidable terms runs to its end exactly when all its terms are true. */
  lemma {:induction false} ConjunctionMeaning(terms: seq<string>, rules: seq<Rule>)
    requires Decided(terms, rules)
    ensures Conjunction(terms, rules) != Abort
    ensures Conjunction(terms, rules) == Completed <==> AllTrue(terms, rules)
    decreases |terms|
  {
    if terms != [] {
      DecidedTail(terms, rules);
      AllTrueCons(terms, rules);
      if terms[0] == "" || RuleResult(terms[0], rules).Met? {
        ConjunctionMeaning(terms[1..], rules);
      }
    }
  }

  /** All non-empty alternatives have decidable terms. */
  predicate Regular(alternatives: seq<string>, rules: seq<Rule>)
  {
    forall a :: 0 <= a < |alternatives| && alternatives[a] != "" ==> Decided(Terms(alternatives[a]), rules)
  }

  /** Some non-empty alternative has only true terms. */
  predicate SomeAllTrue(alternatives: seq<string>, rules: seq<Rule>)
  {
    exists a :: 0 <= a < |alternatives| && alternatives[a] != "" && AllTrue(Terms(alternatives[a]), rules)
  }

  predicate AllEmpty(alternatives: seq<string>)
  {
    forall a :: 0 <= a < |alternatives| ==> alternatives[a] == ""
  }

  /** The properties of a list of alternatives, split into its first piece and the rest. */
  lemma {:induction false} AlternativesCons(alternatives: seq<string>, rules: seq<Rule>)
    requires alternatives != []
    ensures Regular(alternatives, rules) ==> Regular(alternatives[1..], rules)
    ensures SomeAllTrue(alternatives, rules) <==>
      (alternatives[0] != "" && AllTrue(Terms(alternatives[0]), rules)) || SomeAllTrue(alternatives[1..], rules)
    ensures AllEmpty(alternatives) <==> alternatives[0] == "" && AllEmpty(alternatives[1..])
  {
    var rest := alternatives[1..];
    assert forall a :: 0 <= a < |rest| ==> rest[a] == alternatives[a + 1];
    if SomeAllTrue(alternatives, rules) {
      var a :| 0 <= a < |alternatives| && alternatives[a] != "" && AllTrue(Terms(alternatives[a]), rules);
      if a > 0 { assert rest[a - 1] == alternatives[a]; }
    }
    if alternatives[0] == "" && AllEmpty(rest) {
      forall a | 0 <= a < |alternatives| ensures alternatives[a] == "" {
        if a > 0 { assert alternatives[a] == rest[a - 1]; }
      }
    }
  }

  lemma {:induction false} DisjunctionMeaning(alternatives: seq<string>, rules: seq<Rule>, ret: Ret)
    requires Regular(alternatives, rules)
    ensures Disjunction(alternatives, rules, ret) != Invalid
    ensures Disjunction(alternatives, rules, ret).Satisfied? <==>
      SomeAllTrue(alternatives, rules) || (ret.None? && AllEmpty(alternatives))
    decreases |alternatives|
  {
    if alternatives != [] {
      var first := alternatives[0];
      AlternativesCons(alternatives, rules);
      if first == "" {
        DisjunctionMeaning(alternatives[1..], rules, ret);
      } else {
        ConjunctionMeaning(Terms(first), rules);
        if !AllTrue(Terms(first), rules) {
          DisjunctionMeaning(alternatives[1..], rules, Some(Conjunction(Terms(first), rules).text));
        }
      }
    }
  }

  /**
   * Read as an OR of ANDs: with all terms decidable, the expression is satisfied exactly
   * when it has no alternative or some alternative has only true terms (an alternative
   * made only of commas counts as true); otherwise it is reported unsatisfied.
   */
  lemma {:induction false} EvaluationMeaning(expr: string, rules: seq<Rule>)
    requires Regular(Alternatives(expr), rules)
    ensures Evaluation(expr, rules) != Invalid
    ensures Evaluation(expr, rules).Satisfied? <==>
      SomeAllTrue(Alternatives(expr), rules) || AllEmpty(Alternatives(expr))
  {
    DisjunctionMeaning(Alternatives(expr), rules, None);
  }

  /**
   * dsl_evaluate: strsep over the expression, alternatives on ' ' and terms on ','. The
   * first alternative whose terms all hold ends the evaluation as satisfied.
   */
  method DslEvaluate(expr: string, rules: seq<Rule>) returns (o: Outcome)
    ensures o == Evaluation(expr, rules)
  {
    var ptr := Some(expr);
    var ret: Ret := None;
    while true
      invariant Disjunction(Text.Pieces(ptr, ' '), rules, ret) == Evaluation(expr, rules)
      decreases Text.Remaining(ptr)
    {
      var orExpr;
      orExpr, ptr := Text.Strsep(ptr, ' ');
      if orExpr.None? {
        break;
      }
      var alternative := orExpr.value;
      if alternative == "" {
        continue;
      }
      var andPtr := orExpr;
      var stopped := false;
      while true
        invariant !stopped
        invariant Conjunction(Text.Pieces(andPtr, ','), rules) == Conjunction(Terms(alternative), rules)
        decreases Text.Remaining(andPtr)
      {
        var andExpr;
        andExpr, andPtr := Text.Strsep(andPtr, ',');
        if andExpr.None? {
          break;
        }
        if andExpr.value == "" {
          continue;
        }
        var r := EvaluateRule(andExpr.value, rules);
        match r
        case Malformed =>
          return Invalid;
        case Unmet(text) =>
          ret := Some(text);
          stopped := true;
          break;
        case Met =>
      }
      if !stopped {
        return Satisfied;
      }
    }
    o := Final(ret);
  }
}
