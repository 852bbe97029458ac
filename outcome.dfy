/** The outcome classifier `inferResult`: a priority-ordered list of substring
    tests applied to the first sentence of an at-bat. The source writes it as a
    chain of `if (description.includes(...)) return ...`; here that chain is an
    ordered table of rules, each a set of keywords that must all occur, and the
    first matching rule decides. */
module Outcome {
  import opened Text

  /** The values `inferResult` returns. `SacrificeOut` and `SacrificeFlyOut` are
      returned by the code although the declared `AtBatResult` union omits them. */
  datatype AtBatResult =
    | Single | Double | Triple | HomeRun
    | Walk | Strikeout | Out
    | SacrificeOut | SacrificeFlyOut
    | Error | Unknown

  predicate IsHit(r: AtBatResult) {
    r == Single || r == Double || r == Triple || r == HomeRun
  }

  /** A rule fires when every one of its keywords occurs in the description. */
  datatype Rule = Rule(keywords: seq<string>, result: AtBatResult)

  predicate Fires(rule: Rule, d: string) {
    forall i :: 0 <= i < |rule.keywords| ==> Contains(d, rule.keywords[i])
  }

  /** The tests of `inferResult`, in the order the code makes them. The nested
      "grounded and deflected off" block becomes three two-keyword rules, and the
      five-way `||` for a single becomes five rules with the same result. */
  function Rules(): seq<Rule> {
    [ Rule(["homered"], HomeRun),
      Rule(["tripled"], Triple),
      Rule(["doubled"], Double),
      Rule(["grounded and deflected off", "single"], Single),
      Rule(["grounded and deflected off", "doubled"], Double),
      Rule(["grounded and deflected off", "triple"], Triple),
      Rule(["error"], Error),
      Rule(["fielder's choice"], Out),
      Rule(["singled"], Single),
      Rule(["lined to"], Single),
      Rule(["grounded to"], Single),
      Rule(["reached"], Single),
      Rule(["hit to", "for a single"], Single),
      Rule(["walked"], Walk),
      Rule(["hit by a pitch"], Walk),
      Rule(["strikes"], Strikeout),
      Rule(["struck"], Strikeout),
      Rule(["grounded out"], Out),
      Rule(["grounded into a double play"], Out),
      Rule(["lined out"], Out),
      Rule(["was called out"], Out),
      Rule(["flied out"], Out),
      Rule(["popped out"], Out),
      Rule(["sacrificed to"], SacrificeOut),
      Rule(["sacrifice fly"], SacrificeFlyOut) ]
  }

  /** The result of the first rule at or after index `i` that fires, else Unknown. */
  function FirstMatch(rules: seq<Rule>, i: nat, d: string): AtBatResult
    requires i <= |rules|
    decreases |rules| - i
  {
    if i == |rules| then Unknown
    else if Fires(rules[i], d) then rules[i].result
    else FirstMatch(rules, i + 1, d)
  }

  /** `inferResult(description)` */
  function InferResult(d: string): AtBatResult {
    FirstMatch(Rules(), 0, d)
  }

  /** First-match semantics: the result is that of the earliest firing rule from
      `i` on, and Unknown exactly when none fires (given no rule yields Unknown). */
  lemma {:induction false} FirstMatchIsEarliest(rules: seq<Rule>, i: nat, d: string)
    requires i <= |rules|
    requires forall j :: 0 <= j < |rules| ==> rules[j].result != Unknown
    ensures FirstMatch(rules, i, d) == Unknown <==> forall j :: i <= j < |rules| ==> !Fires(rules[j], d)
    ensures forall j :: i <= j < |rules| && Fires(rules[j], d) && (forall m :: i <= m < j ==> !Fires(rules[m], d))
              ==> FirstMatch(rules, i, d) == rules[j].result
    decreases |rules| - i
  {
    if i < |rules| {
      FirstMatchIsEarliest(rules, i + 1, d);
    }
  }

  /** Priority: whenever rule `j` fires, the result is that of some rule `m <= j`
      that fires, so no later rule can override an earlier one. */
  lemma {:induction false} FirstMatchPriority(rules: seq<Rule>, i: nat, j: nat, d: string)
    requires i <= j < |rules|
    requires Fires(rules[j], d)
    ensures exists m :: i <= m <= j && Fires(rules[m], d) && FirstMatch(rules, i, d) == rules[m].result
    decreases j - i
  {
    if !Fires(rules[i], d) {
      FirstMatchPriority(rules, i + 1, j, d);
    }
  }

  /** No rule of the table yields Unknown: Unknown is only the fall-through. */
  lemma RulesNeverUnknown()
    ensures forall j :: 0 <= j < |Rules()| ==> Rules()[j].result != Unknown
  {
  }

  /** A one-keyword rule fires exactly when its keyword occurs. */
  lemma FiresOne(rule: Rule, d: string)
    requires |rule.keywords| == 1
    ensures Fires(rule, d) <==> Contains(d, rule.keywords[0])
  {
  }

  /** "homered" anywhere gives a home run, whatever else the sentence says. */
  lemma HomeredWins(d: string)
    requires Contains(d, "homered")
    ensures InferResult(d) == HomeRun
  {
    assert Fires(Rules()[0], d);
  }

  /** Failing "homered", "tripled" gives a triple. */
  lemma TripledNext(d: string)
    requires !Contains(d, "homered") && Contains(d, "tripled")
    ensures InferResult(d) == Triple
  {
    var r := Rules();
    FiresOne(r[0], d);
    FiresOne(r[1], d);
  }

  /** Failing both, "doubled" gives a double. */
  lemma DoubledNext(d: string)
    requires !Contains(d, "homered") && !Contains(d, "tripled") && Contains(d, "doubled")
    ensures InferResult(d) == Double
  {
    var r := Rules();
    FiresOne(r[0], d);
    FiresOne(r[1], d);
    FiresOne(r[2], d);
  }

  /** A description without any keyword of the table is `unknown`; and `unknown`
      is returned only then. */
  lemma UnknownIffNoKeyword(d: string)
    ensures InferResult(d) == Unknown <==> forall j :: 0 <= j < |Rules()| ==> !Fires(Rules()[j], d)
  {
    RulesNeverUnknown();
    FirstMatchIsEarliest(Rules(), 0, d);
  }

  /** The classifier never returns Unknown for a sentence that fires some rule,
      and its result is always the result of a firing rule at or before it. */
  lemma ClassifiedByEarlierRule(d: string, j: nat)
    requires j < |Rules()| && Fires(Rules()[j], d)
    ensures InferResult(d) != Unknown
    ensures exists m :: 0 <= m <= j && Fires(Rules()[m], d) && InferResult(d) == Rules()[m].result
  {
    RulesNeverUnknown();
    FirstMatchPriority(Rules(), 0, j, d);
    var m :| 0 <= m <= j && Fires(Rules()[m], d) && InferResult(d) == Rules()[m].result;
    assert Rules()[m].result != Unknown;
  }

  /** The fifth rule ("grounded and deflected off" with "doubled") never decides:
      any sentence it fires on already fires the "doubled" rule, so the result
      comes from one of the first three rules. */
  lemma DeflectedDoubleIsShadowed(d: string)
    requires Fires(Rules()[4], d)
    ensures Fires(Rules()[2], d)
    ensures InferResult(d) in {HomeRun, Triple, Double}
  {
    var r := Rules();
    assert Contains(d, r[4].keywords[1]);
    FirstMatchPriority(r, 0, 2, d);
  }
}
