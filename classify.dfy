/** The rule-assisted two-stage sentence classifier of
    `semantic_ai_washing/core/classify.py`.

    The sentence-embedding model and the class centroids are not modelled: the
    centroid pass is a parameter `centroid` that maps a text to its cosine
    score per class, with one key per class present in the centroid file, and
    each named regular expression is a text predicate held in `Patterns`. */
module Classify {
  import opened Common
  import Text

  datatype Label = Actionable | Speculative | Irrelevant

  function LabelName(l: Label): string
  {
    match l
    case Actionable => "Actionable"
    case Speculative => "Speculative"
    case Irrelevant => "Irrelevant"
  }

  /** The string a label is written as, back to the label. */
  function ParseLabel(s: string): (r: Option<Label>)
    ensures r.Some? <==> s in {"Actionable", "Speculative", "Irrelevant"}
    ensures r.Some? ==> LabelName(r.value) == s
  {
    if s == "Actionable" then Some(Actionable)
    else if s == "Speculative" then Some(Speculative)
    else if s == "Irrelevant" then Some(Irrelevant)
    else None
  }

  lemma ParseLabelName(l: Label)
    ensures ParseLabel(LabelName(l)) == Some(l)
  {
  }

  /** The score dict: one optional entry per class. A key is present when the
      centroid file (or a rule) supplied it. */
  datatype ScoreMap = Scores(a: Option<real>, s: Option<real>, i: Option<real>)

  const NoScores := Scores(None, None, None)

  function Entry(m: ScoreMap, l: Label): Option<real>
  {
    match l
    case Actionable => m.a
    case Speculative => m.s
    case Irrelevant => m.i
  }

  /** `label in scores`. */
  predicate Has(m: ScoreMap, l: Label)
  {
    Entry(m, l).Some?
  }

  /** `scores.get(label, 0.0)`. */
  function Get(m: ScoreMap, l: Label): real
  {
    match Entry(m, l)
    case Some(v) => v
    case None => 0.0
  }

  /** `scores[label] = x`: that entry is set, the others are kept. */
  function Set(m: ScoreMap, l: Label, x: real): ScoreMap
  {
    match l
    case Actionable => m.(a := Some(x))
    case Speculative => m.(s := Some(x))
    case Irrelevant => m.(i := Some(x))
  }

  function Abs(x: real): real { if x < 0.0 then -x else x }
  function Max(x: real, y: real): real { if x >= y then x else y }
  function Min(x: real, y: real): real { if x <= y then x else y }

  /** Position of a class in the centroid file, which lists Actionable,
      Speculative, Irrelevant in that order. */
  function Rank(l: Label): nat
  {
    match l
    case Actionable => 0
    case Speculative => 1
    case Irrelevant => 2
  }

  /** One step of Python's `max(scores.items(), key=value)`: a later class
      replaces the best so far only when its score is strictly larger. */
  function MaxStep(m: ScoreMap, best: Option<Label>, l: Label): (r: Option<Label>)
    requires best.Some? ==> Has(m, best.value)
    ensures r.Some? ==> Has(m, r.value)
    ensures best.Some? ==> r.Some? && Get(m, r.value) >= Get(m, best.value)
    ensures Has(m, l) ==> r.Some? && Get(m, r.value) >= Get(m, l)
    ensures r == best || r == Some(l)
    ensures best.Some? && r == Some(l) && l != best.value ==> Get(m, l) > Get(m, best.value)
    ensures !Has(m, l) ==> r == best
  {
    if !Has(m, l) then best
    else if best.None? || Get(m, l) > Get(m, best.value) then Some(l)
    else best
  }

  /** `max(scores.items(), key=lambda kv: kv[1])[0]` over the classes in
      centroid order; `None` is the `ValueError` of an empty dict. */
  function ArgMax(m: ScoreMap): (r: Option<Label>)
    ensures r.None? <==> m == NoScores
    ensures r.Some? ==> Has(m, r.value) && forall l :: Has(m, l) ==> Get(m, l) <= Get(m, r.value)
    ensures r.Some? ==> forall l :: Has(m, l) && Rank(l) < Rank(r.value) ==> Get(m, l) < Get(m, r.value)
  {
    var b1 := MaxStep(m, None, Actionable);
    var b2 := MaxStep(m, b1, Speculative);
    var r := MaxStep(m, b2, Irrelevant);
    assert r.Some? ==> Has(m, Actionable) ==> Get(m, Actionable) <= Get(m, r.value);
    assert r.Some? ==> Has(m, Speculative) ==> Get(m, Speculative) <= Get(m, r.value);
    r
  }

  /** `round(x, 3)` on the exact value: nearest multiple of 0.001, ties to even. */
  function Round3(x: real): (r: real)
    ensures x >= 0.0 ==> r >= 0.0
    ensures -0.0005 <= r - x <= 0.0005
  {
    var y := x * 1000.0;
    var f := y.Floor;
    var frac := y - f as real;
    var n := if frac > 0.5 then f + 1 else if frac < 0.5 then f else if f % 2 == 0 then f else f + 1;
    assert -0.5 <= n as real - y <= 0.5;
    n as real / 1000.0
  }

  /** The named regular expressions of the classifier (`re.search` truth for
      each), plus the four patterns the source writes inline. */
  datatype Patterns = Patterns(
    focusOnAi: string -> bool,
    futureFeatures: string -> bool,
    intendFocus: string -> bool,
    globalSubjectLaws: string -> bool,
    lawsListIntro: string -> bool,
    infrastructure: string -> bool,
    infrastructureBroad: string -> bool,
    applyLearnings: string -> bool,
    futureBasedOnAi: string -> bool,
    innovatingBuild: string -> bool,
    offeringMl: string -> bool,
    providesMl: string -> bool,
    complexEstimate: string -> bool,
    preventDeliver: string -> bool,
    userDiminish: string -> bool,
    decreasedEngagement: string -> bool,
    actionVerbs: string -> bool,
    modals: string -> bool,
    // inline: "continue to invest in new and unproven technologies, including AI"
    investLaundry: string -> bool,
    // inline: "data leakage" / "unauthorized exposure of data"
    dataLeakage: string -> bool,
    // inline: "reevaluated our data center investment strategy"
    dataCenterReeval: string -> bool,
    // inline: "subject to / subject of multiple lawsuits"
    multipleLawsuits: string -> bool,
    // inline: "develop(ing) and deploy(ing) AI"
    developAndDeploy: string -> bool)

  // ---------------------------------------------------------------------
  // Ordered score-adjustment rules
  // ---------------------------------------------------------------------

  /** A single score update: `Raise` adds, `Lower` subtracts and floors at 0.0
      (`max(0.0, s.get(l, 0.0) - c)`). */
  datatype Effect = Raise(target: Label, amount: real) | Lower(target: Label, amount: real)

  /** A guarded block of updates: when `fires(text)`, its effects run in order. */
  datatype Rule = Rule(fires: string -> bool, effects: seq<Effect>)

  function ApplyEffect(m: ScoreMap, e: Effect): ScoreMap
  {
    match e
    case Raise(l, c) => Raised(m, l, c)
    case Lower(l, c) => Lowered(m, l, c)
  }

  /** `s[l] = s.get(l, 0.0) + c`. */
  function Raised(m: ScoreMap, l: Label, c: real): ScoreMap
  {
    Set(m, l, Get(m, l) + c)
  }

  /** `s[l] = max(0.0, s.get(l, 0.0) - c)`. */
  function Lowered(m: ScoreMap, l: Label, c: real): ScoreMap
  {
    Set(m, l, Max(0.0, Get(m, l) - c))
  }

  function ApplyEffects(m: ScoreMap, es: seq<Effect>): ScoreMap
    decreases |es|
  {
    if es == [] then m else ApplyEffects(ApplyEffect(m, es[0]), es[1..])
  }

  /** One guarded block: its effects when it fires on `text`, else nothing. */
  function Fire(text: string, rule: Rule, m: ScoreMap): ScoreMap
  {
    if rule.fires(text) then ApplyEffects(m, rule.effects) else m
  }

  /** Run the rules in table order on `text`. */
  function ApplyRules(text: string, rules: seq<Rule>, m: ScoreMap): ScoreMap
  {
    if rules == [] then m else ApplyRules(text, rules[1..], Fire(text, rules[0], m))
  }

  /** A run of the rules is the chain of its intermediate score dicts. */
  lemma {:induction false} ApplyRulesChain(text: string, rules: seq<Rule>, states: seq<ScoreMap>)
    requires |states| == |rules| + 1
    requires forall k :: 0 <= k < |rules| ==> states[k + 1] == Fire(text, rules[k], states[k])
    ensures ApplyRules(text, rules, states[0]) == states[|rules|]
    decreases |rules|
  {
    if rules != [] {
      assert forall k :: 0 <= k < |rules| - 1 ==> rules[1..][k] == rules[k + 1] && states[1..][k] == states[k + 1];
      ApplyRulesChain(text, rules[1..], states[1..]);
    }
  }

  predicate Touches(es: seq<Effect>, l: Label)
  {
    exists k :: 0 <= k < |es| && es[k].target == l
  }

  predicate Lowers(es: seq<Effect>, l: Label)
  {
    exists k :: 0 <= k < |es| && es[k] == Lower(l, es[k].amount)
  }

  /** Every `Raise` in the table adds a non-negative amount. */
  predicate RaisesNonNegative(rules: seq<Rule>)
  {
    forall k, j :: 0 <= k < |rules| && 0 <= j < |rules[k].effects| && rules[k].effects[j].Raise? ==>
      rules[k].effects[j].amount >= 0.0
  }

  lemma {:induction false} EffectsUntouched(m: ScoreMap, es: seq<Effect>, l: Label)
    requires !Touches(es, l)
    ensures Get(ApplyEffects(m, es), l) == Get(m, l)
    ensures Has(ApplyEffects(m, es), l) <==> Has(m, l)
    decreases |es|
  {
    if es != [] {
      assert es[0].target != l;
      forall k | 0 <= k < |es[1..]| ensures es[1..][k].target != l { assert es[1..][k] == es[k + 1]; }
      EffectsUntouched(ApplyEffect(m, es[0]), es[1..], l);
    }
  }

  /** A class that no firing rule mentions keeps its score (and its presence). */
  lemma {:induction false} RulesUntouched(text: string, rules: seq<Rule>, m: ScoreMap, l: Label)
    requires forall k :: 0 <= k < |rules| && rules[k].fires(text) ==> !Touches(rules[k].effects, l)
    ensures Get(ApplyRules(text, rules, m), l) == Get(m, l)
    ensures Has(ApplyRules(text, rules, m), l) <==> Has(m, l)
    decreases |rules|
  {
    if rules != [] {
      var m' := Fire(text, rules[0], m);
      if rules[0].fires(text) {
        EffectsUntouched(m, rules[0].effects, l);
      }
      assert forall k :: 0 <= k < |rules[1..]| ==> rules[1..][k] == rules[k + 1];
      RulesUntouched(text, rules[1..], m', l);
    }
  }

  lemma {:induction false} EffectsKeepNonNegative(m: ScoreMap, es: seq<Effect>, l: Label)
    requires Get(m, l) >= 0.0
    requires forall j :: 0 <= j < |es| && es[j].Raise? ==> es[j].amount >= 0.0
    ensures Get(ApplyEffects(m, es), l) >= 0.0
    decreases |es|
  {
    if es != [] {
      EffectsKeepNonNegative(ApplyEffect(m, es[0]), es[1..], l);
    }
  }

  lemma {:induction false} EffectsLowerNonNegative(m: ScoreMap, es: seq<Effect>, l: Label)
    requires Lowers(es, l)
    requires forall j :: 0 <= j < |es| && es[j].Raise? ==> es[j].amount >= 0.0
    ensures Get(ApplyEffects(m, es), l) >= 0.0
    decreases |es|
  {
    var m' := ApplyEffect(m, es[0]);
    if es[0] == Lower(l, es[0].amount) {
      EffectsKeepNonNegative(m', es[1..], l);
    } else {
      var k :| 0 <= k < |es| && es[k] == Lower(l, es[k].amount);
      assert es[1..][k - 1] == es[k];
      EffectsLowerNonNegative(m', es[1..], l);
    }
  }

  lemma {:induction false} RulesKeepNonNegative(text: string, rules: seq<Rule>, m: ScoreMap, l: Label)
    requires Get(m, l) >= 0.0 && RaisesNonNegative(rules)
    ensures Get(ApplyRules(text, rules, m), l) >= 0.0
    decreases |rules|
  {
    if rules != [] {
      if rules[0].fires(text) {
        EffectsKeepNonNegative(m, rules[0].effects, l);
      }
      assert forall k :: 0 <= k < |rules[1..]| ==> rules[1..][k] == rules[k + 1];
      RulesKeepNonNegative(text, rules[1..], Fire(text, rules[0], m), l);
    }
  }

  /** Once a firing rule has lowered a class (with the floor at zero), no later
      rule of a table that only raises by non-negative amounts can make it
      negative again. */
  lemma {:induction false} LoweredStaysNonNegative(text: string, rules: seq<Rule>, m: ScoreMap, l: Label, k: nat)
    requires RaisesNonNegative(rules)
    requires k < |rules| && rules[k].fires(text) && Lowers(rules[k].effects, l)
    ensures Get(ApplyRules(text, rules, m), l) >= 0.0
    decreases |rules|
  {
    var m' := Fire(text, rules[0], m);
    assert forall j :: 0 <= j < |rules[1..]| ==> rules[1..][j] == rules[j + 1];
    if k == 0 {
      EffectsLowerNonNegative(m, rules[0].effects, l);
      RulesKeepNonNegative(text, rules[1..], m', l);
    } else {
      LoweredStaysNonNegative(text, rules[1..], m', l, k - 1);
    }
  }

  /** `adjust_scores_v2`, as its ordered table of rules. */
  function BoostTable(p: Patterns): seq<Rule>
  {
    [ LawsListRule(p),
      OfferingRule(p),
      ComplexEstimateRule(p),
      FutureFeaturesRule(p),
      ApplyLearningsRule(p),
      PreventDeliverRule(p),
      InvestLaundryRule(p),
      FutureBasedRule(p),
      DevelopDeployRule(p) ]
  }

  function LawsListRule(p: Patterns): Rule { Rule(p.lawsListIntro, [Raise(Irrelevant, 0.15), Lower(Speculative, 0.08)]) }
  function OfferingRule(p: Patterns): Rule { Rule(t => p.offeringMl(t) || p.providesMl(t), [Raise(Actionable, 0.12)]) }
  function ComplexEstimateRule(p: Patterns): Rule { Rule(p.complexEstimate, [Raise(Speculative, 0.12)]) }
  function FutureFeaturesRule(p: Patterns): Rule { Rule(p.futureFeatures, [Lower(Actionable, 0.06)]) }
  function ApplyLearningsRule(p: Patterns): Rule { Rule(p.applyLearnings, [Raise(Irrelevant, 0.1), Raise(Speculative, 0.05), Lower(Actionable, 0.08)]) }
  function PreventDeliverRule(p: Patterns): Rule { Rule(t => p.preventDeliver(t) || p.userDiminish(t), [Raise(Actionable, 0.06)]) }
  function InvestLaundryRule(p: Patterns): Rule { Rule(p.investLaundry, [Raise(Speculative, 0.12), Lower(Irrelevant, 0.06)]) }
  function FutureBasedRule(p: Patterns): Rule { Rule(p.futureBasedOnAi, [Raise(Irrelevant, 0.12), Lower(Actionable, 0.06)]) }
  function DevelopDeployRule(p: Patterns): Rule { Rule(p.developAndDeploy, [Raise(Actionable, 0.1)]) }

  /** The global-law tilt `classify_two_stage` adds after `adjust_scores_v2`. */
  function GlobalLawTilt(p: Patterns): Rule
  {
    Rule(p.globalSubjectLaws, [Raise(Speculative, 0.12), Lower(Irrelevant, 0.08)])
  }

  /** A rule of one to three effects, written out as the guarded block it stands for. */
  lemma FireUnfold(text: string, r: Rule, m: ScoreMap)
    requires 1 <= |r.effects| <= 3
    ensures Fire(text, r, m) ==
      if !r.fires(text) then m
      else if |r.effects| == 1 then ApplyEffect(m, r.effects[0])
      else if |r.effects| == 2 then ApplyEffect(ApplyEffect(m, r.effects[0]), r.effects[1])
      else ApplyEffect(ApplyEffect(ApplyEffect(m, r.effects[0]), r.effects[1]), r.effects[2])
  {
    var es := r.effects;
    var m1 := ApplyEffect(m, es[0]);
    assert ApplyEffects(m, es) == ApplyEffects(m1, es[1..]);
    if |es| == 1 {
      assert es[1..] == [];
    } else {
      var m2 := ApplyEffect(m1, es[1]);
      assert ApplyEffects(m1, es[1..]) == ApplyEffects(m2, es[2..]) by { assert es[1..][1..] == es[2..]; }
      if |es| == 2 {
        assert es[2..] == [];
      } else {
        assert ApplyEffects(m2, es[2..]) == ApplyEffects(ApplyEffect(m2, es[2]), es[3..]) by { assert es[2..][1..] == es[3..]; }
        assert es[3..] == [];
      }
    }
  }

  /** A run of nine rules, given as its ten intermediate score dicts. */
  lemma ApplyNineRules(text: string, rules: seq<Rule>, s0: ScoreMap, s1: ScoreMap, s2: ScoreMap, s3: ScoreMap,
                       s4: ScoreMap, s5: ScoreMap, s6: ScoreMap, s7: ScoreMap, s8: ScoreMap, s9: ScoreMap)
    requires |rules| == 9
    requires s1 == Fire(text, rules[0], s0) && s2 == Fire(text, rules[1], s1) && s3 == Fire(text, rules[2], s2)
    requires s4 == Fire(text, rules[3], s3) && s5 == Fire(text, rules[4], s4) && s6 == Fire(text, rules[5], s5)
    requires s7 == Fire(text, rules[6], s6) && s8 == Fire(text, rules[7], s7) && s9 == Fire(text, rules[8], s8)
    ensures s9 == ApplyRules(text, rules, s0)
  {
    var st := [s0, s1, s2, s3, s4, s5, s6, s7, s8, s9];
    forall k | 0 <= k < |rules| ensures st[k + 1] == Fire(text, rules[k], st[k]) {
      if k == 0 {} else if k == 1 {} else if k == 2 {} else if k == 3 {} else if k == 4 {}
      else if k == 5 {} else if k == 6 {} else if k == 7 {} else {}
    }
    ApplyRulesChain(text, rules, st);
  }

  /** The nine guarded blocks of `adjust_scores_v2`, run one after another,
      compute the fold of its rule table. */
  lemma BlocksComputeTable(p: Patterns, text: string, s0: ScoreMap, s1: ScoreMap, s2: ScoreMap, s3: ScoreMap, s4: ScoreMap,
                               s5: ScoreMap, s6: ScoreMap, s7: ScoreMap, s8: ScoreMap, s9: ScoreMap)
    requires s1 == if p.lawsListIntro(text) then Lowered(Raised(s0, Irrelevant, 0.15), Speculative, 0.08) else s0
    requires s2 == if p.offeringMl(text) || p.providesMl(text) then Raised(s1, Actionable, 0.12) else s1
    requires s3 == if p.complexEstimate(text) then Raised(s2, Speculative, 0.12) else s2
    requires s4 == if p.futureFeatures(text) then Lowered(s3, Actionable, 0.06) else s3
    requires s5 == if p.applyLearnings(text) then Lowered(Raised(Raised(s4, Irrelevant, 0.1), Speculative, 0.05), Actionable, 0.08) else s4
    requires s6 == if p.preventDeliver(text) || p.userDiminish(text) then Raised(s5, Actionable, 0.06) else s5
    requires s7 == if p.investLaundry(text) then Lowered(Raised(s6, Speculative, 0.12), Irrelevant, 0.06) else s6
    requires s8 == if p.futureBasedOnAi(text) then Lowered(Raised(s7, Irrelevant, 0.12), Actionable, 0.06) else s7
    requires s9 == if p.developAndDeploy(text) then Raised(s8, Actionable, 0.1) else s8
    ensures s9 == ApplyRules(text, BoostTable(p), s0)
  {
    FireUnfold(text, LawsListRule(p), s0);
    FireUnfold(text, OfferingRule(p), s1);
    FireUnfold(text, ComplexEstimateRule(p), s2);
    FireUnfold(text, FutureFeaturesRule(p), s3);
    FireUnfold(text, ApplyLearningsRule(p), s4);
    FireUnfold(text, PreventDeliverRule(p), s5);
    FireUnfold(text, InvestLaundryRule(p), s6);
    FireUnfold(text, FutureBasedRule(p), s7);
    FireUnfold(text, DevelopDeployRule(p), s8);
    ApplyNineRules(text, BoostTable(p), s0, s1, s2, s3, s4, s5, s6, s7, s8, s9);
  }

  /** `adjust_scores_v2(text, s)`: updates the score dict block by block. The
      dict it receives is freshly built by the centroid pass, so updating it in
      place and returning it is the same as returning a new value. */
  method AdjustScoresV2(p: Patterns, text: string, s0: ScoreMap) returns (s: ScoreMap)
    ensures s == ApplyRules(text, BoostTable(p), s0)
  {
    s := s0;
    if p.lawsListIntro(text) {
      s := Set(s, Irrelevant, Get(s, Irrelevant) + 0.15);
      s := Set(s, Speculative, Max(0.0, Get(s, Speculative) - 0.08));
    }
    ghost var s1 := s;
    if p.offeringMl(text) || p.providesMl(text) {
      s := Set(s, Actionable, Get(s, Actionable) + 0.12);
    }
    ghost var s2 := s;
    if p.complexEstimate(text) {
      s := Set(s, Speculative, Get(s, Speculative) + 0.12);
    }
    ghost var s3 := s;
    if p.futureFeatures(text) {
      s := Set(s, Actionable, Max(0.0, Get(s, Actionable) - 0.06));
    }
    ghost var s4 := s;
    if p.applyLearnings(text) {
      s := Set(s, Irrelevant, Get(s, Irrelevant) + 0.1);
      s := Set(s, Speculative, Get(s, Speculative) + 0.05);
      s := Set(s, Actionable, Max(0.0, Get(s, Actionable) - 0.08));
    }
    ghost var s5 := s;
    if p.preventDeliver(text) || p.userDiminish(text) {
      s := Set(s, Actionable, Get(s, Actionable) + 0.06);
    }
    ghost var s6 := s;
    if p.investLaundry(text) {
      s := Set(s, Speculative, Get(s, Speculative) + 0.12);
      s := Set(s, Irrelevant, Max(0.0, Get(s, Irrelevant) - 0.06));
    }
    ghost var s7 := s;
    if p.futureBasedOnAi(text) {
      s := Set(s, Irrelevant, Get(s, Irrelevant) + 0.12);
      s := Set(s, Actionable, Max(0.0, Get(s, Actionable) - 0.06));
    }
    ghost var s8 := s;
    if p.developAndDeploy(text) {
      s := Set(s, Actionable, Get(s, Actionable) + 0.1);
    }
    BlocksComputeTable(p, text, s0, s1, s2, s3, s4, s5, s6, s7, s8, s);
  }

  lemma BoostTableRaisesNonNegative(p: Patterns)
    ensures RaisesNonNegative(BoostTable(p)) && RaisesNonNegative([GlobalLawTilt(p)])
  {
  }

  /** In `adjust_scores_v2` only the law-list, applying-learnings, investment-list
      and future-based-on-AI blocks move the Irrelevant score. */
  lemma IrrelevantMovedOnlyByFourRules(p: Patterns, text: string, s0: ScoreMap)
    requires !p.lawsListIntro(text) && !p.applyLearnings(text) && !p.investLaundry(text) && !p.futureBasedOnAi(text)
    ensures Get(ApplyRules(text, BoostTable(p), s0), Irrelevant) == Get(s0, Irrelevant)
  {
    var table := BoostTable(p);
    forall k | 0 <= k < |table| && table[k].fires(text) ensures !Touches(table[k].effects, Irrelevant) {
      assert k in {1, 2, 3, 5, 8};
    }
    RulesUntouched(text, table, s0, Irrelevant);
  }

  /** A class that `adjust_scores_v2` lowers ends the adjustment at 0.0 or above,
      whatever the later blocks add. */
  lemma LoweredScoreNonNegative(p: Patterns, text: string, s0: ScoreMap, l: Label)
    requires (l == Speculative && p.lawsListIntro(text))
          || (l == Actionable && (p.futureFeatures(text) || p.applyLearnings(text) || p.futureBasedOnAi(text)))
          || (l == Irrelevant && p.investLaundry(text))
    ensures Get(ApplyRules(text, BoostTable(p), s0), l) >= 0.0
  {
    var table := BoostTable(p);
    BoostTableRaisesNonNegative(p);
    var k: nat :=
      if l == Speculative then 0
      else if l == Irrelevant then 6
      else if p.futureFeatures(text) then 3
      else if p.applyLearnings(text) then 4
      else 7;
    assert table[k].effects[|table[k].effects| - 1] == Lower(l, table[k].effects[|table[k].effects| - 1].amount);
    LoweredStaysNonNegative(text, table, s0, l, k);
  }

  // ---------------------------------------------------------------------
  // Rule predicates
  // ---------------------------------------------------------------------

  /** `should_force_speculative`. */
  predicate ShouldForceSpeculative(p: Patterns, t: string)
  {
    (p.modals(t) && !p.actionVerbs(t)) || p.intendFocus(t) || p.focusOnAi(t) || p.futureFeatures(t) || p.globalSubjectLaws(t)
  }

  /** Cues that exempt a sentence from the Irrelevant gate. */
  predicate GateExempt(p: Patterns, t: string)
  {
    p.focusOnAi(t) || p.intendFocus(t) || p.futureFeatures(t) || p.globalSubjectLaws(t) || p.investLaundry(t)
  }

  datatype GateReason =
    | AiInfrastructure | DataLeakage | DataCenterReeval | MultipleLawsuits | DecreasedEngagement
    | LawsListIntro | FutureBasedOnAi | ApplyingLearnings | InnovatingWithoutAction

  datatype GateVerdict = Exempt | Gated(reason: GateReason) | NotGated

  /** `is_irrelevant_by_rules`, keeping which check decided: the exemptions
      first, then the Irrelevant cues in source order. */
  function GateCheck(p: Patterns, t: string): (v: GateVerdict)
    ensures v.Exempt? <==> GateExempt(p, t)
    ensures v.Gated? ==> !GateExempt(p, t)
  {
    if p.focusOnAi(t) || p.intendFocus(t) || p.futureFeatures(t) || p.globalSubjectLaws(t) then Exempt
    else if p.investLaundry(t) then Exempt
    else if p.infrastructureBroad(t) || p.infrastructure(t) then Gated(AiInfrastructure)
    else if p.dataLeakage(t) then Gated(DataLeakage)
    else if p.dataCenterReeval(t) then Gated(DataCenterReeval)
    else if p.multipleLawsuits(t) then Gated(MultipleLawsuits)
    else if p.decreasedEngagement(t) then Gated(DecreasedEngagement)
    else if p.lawsListIntro(t) then Gated(LawsListIntro)
    else if p.futureBasedOnAi(t) then Gated(FutureBasedOnAi)
    else if p.applyLearnings(t) then Gated(ApplyingLearnings)
    else if p.innovatingBuild(t) && !p.actionVerbs(t) then Gated(InnovatingWithoutAction)
    else NotGated
  }

  predicate IsIrrelevantByRules(p: Patterns, t: string)
  {
    GateCheck(p, t).Gated?
  }

  /** The gate fires exactly when no exemption matches and at least one
      Irrelevant cue does. */
  lemma GateCharacterized(p: Patterns, t: string)
    ensures IsIrrelevantByRules(p, t) <==>
      !GateExempt(p, t) &&
      (p.infrastructureBroad(t) || p.infrastructure(t) || p.dataLeakage(t) || p.dataCenterReeval(t)
       || p.multipleLawsuits(t) || p.decreasedEngagement(t) || p.lawsListIntro(t) || p.futureBasedOnAi(t)
       || p.applyLearnings(t) || (p.innovatingBuild(t) && !p.actionVerbs(t)))
  {
  }

  // ---------------------------------------------------------------------
  // classify_sentence and classify_two_stage
  // ---------------------------------------------------------------------

  /** `classify_sentence`: the centroid label with the largest score (the
      first in centroid order on a tie); `ValueError` with no centroids. */
  function ClassifySentence(centroid: string -> ScoreMap, t: string): (r: Result<(Label, ScoreMap)>)
    ensures r.Failure? <==> centroid(t) == NoScores
    ensures r.Success? ==>
      r.value.1 == centroid(t) && Has(r.value.1, r.value.0)
      && forall l :: Has(r.value.1, l) ==> Get(r.value.1, l) <= Get(r.value.1, r.value.0)
    ensures r.Success? ==> ArgMax(centroid(t)).Some? && r.value.0 == ArgMax(centroid(t)).value
  {
    var scores := centroid(t);
    match ArgMax(scores)
    case None => Failure("ValueError")
    case Some(best) => Success((best, scores))
  }

  datatype Config = Config(twoStage: bool, ruleBoosts: bool, tau: real, epsIrr: real, minTokens: int)

  /** The keyword defaults of `classify_two_stage`. */
  const DefaultConfig := Config(true, true, 0.07, 0.03, 6)

  /** A label, the score dict, and the dict's `fine_margin` entry. */
  datatype Prediction = Prediction(predicted: Label, scores: ScoreMap, fineMargin: real)

  function OneHot(l: Label): ScoreMap
  {
    Scores(Some(if l == Actionable then 1.0 else 0.0),
           Some(if l == Speculative then 1.0 else 0.0),
           Some(if l == Irrelevant then 1.0 else 0.0))
  }

  /** Which guard of `classify_two_stage` decides a sentence. */
  datatype Route = ForcedSpeculative | TooShort | RuleGate | OpsRisk | Scored

  function RouteOf(p: Patterns, t: string, cfg: Config): Route
  {
    if ShouldForceSpeculative(p, t) && !p.actionVerbs(t) then ForcedSpeculative
    else if |Text.SplitWs(t)| < cfg.minTokens then TooShort
    else if cfg.twoStage && IsIrrelevantByRules(p, t) then RuleGate
    else if (p.preventDeliver(t) || p.userDiminish(t)) && !p.modals(t) then OpsRisk
    else Scored
  }

  /** The centroid scores after the optional rule boosts and the global-law tilt. */
  function Boosted(p: Patterns, t: string, cfg: Config, raw: ScoreMap): ScoreMap
  {
    if cfg.ruleBoosts then ApplyRules(t, [GlobalLawTilt(p)], ApplyRules(t, BoostTable(p), raw)) else raw
  }

  /** `sorted([a, s, i])[-2]`. */
  function SecondLargest(a: real, s: real, i: real): (r: real)
    ensures r == a || r == s || r == i
    ensures (if a >= r then 1 else 0) + (if s >= r then 1 else 0) + (if i >= r then 1 else 0) >= 2
    ensures (if a <= r then 1 else 0) + (if s <= r then 1 else 0) + (if i <= r then 1 else 0) >= 2
  {
    Max(Min(a, s), Min(Max(a, s), i))
  }

  /** `abs(max(a, s, i) - sorted([a, s, i])[-2])`: the gap between the two
      largest of the three scores. */
  function TopGap(a: real, s: real, i: real): (r: real)
    ensures r >= 0.0
    ensures r == 0.0 <==> (a == s && a >= i) || (a == i && a >= s) || (s == i && s >= a)
  {
    Abs(Max(Max(a, s), i) - SecondLargest(a, s, i))
  }

  /** The label of the final, margin-based decision. */
  function FineLabel(p: Patterns, t: string, cfg: Config, m: ScoreMap): Label
  {
    var a, s, i := Get(m, Actionable), Get(m, Speculative), Get(m, Irrelevant);
    if cfg.twoStage && Abs(i - Max(a, s)) < cfg.epsIrr && i > 0.5 then Irrelevant
    else if Abs(a - s) < cfg.tau then
      (if ShouldForceSpeculative(p, t) then Speculative else if a >= s then Actionable else Speculative)
    else if a >= s && a >= i then Actionable
    else if s >= a && s >= i then Speculative
    else Irrelevant
  }

  /** `classify_two_stage(text, two_stage, rule_boosts, tau, eps_irr, min_tokens)`. */
  function ClassifyTwoStage(p: Patterns, centroid: string -> ScoreMap, t: string, cfg: Config): (r: Result<Prediction>)
    ensures r.Failure? <==> RouteOf(p, t, cfg) == TooShort && centroid(t) == NoScores
    ensures r.Success? ==> r.value.fineMargin >= 0.0
  {
    match RouteOf(p, t, cfg)
    case ForcedSpeculative => Success(Prediction(Speculative, OneHot(Speculative), 0.0))
    case TooShort =>
      var raw := centroid(t);
      (match ArgMax(raw)
       case None => Failure("ValueError")
       case Some(best) => Success(Prediction(best, raw, 0.0)))
    case RuleGate => Success(Prediction(Irrelevant, OneHot(Irrelevant), 0.0))
    case OpsRisk => Success(Prediction(Actionable, OneHot(Actionable), 0.0))
    case Scored =>
      var m := Boosted(p, t, cfg, centroid(t));
      var a, s, i := Get(m, Actionable), Get(m, Speculative), Get(m, Irrelevant);
      Success(Prediction(FineLabel(p, t, cfg, m), m, Round3(TopGap(a, s, i))))
  }

  // ---------------------------------------------------------------------
  // Properties of classify_two_stage
  // ---------------------------------------------------------------------

  /** Future or intent language without action verbs is Speculative before
      any other check: whatever the length, the gate, or the scores. */
  lemma ForcedSpeculativeFirst(p: Patterns, centroid: string -> ScoreMap, t: string, cfg: Config)
    requires !p.actionVerbs(t)
    requires p.modals(t) || p.intendFocus(t) || p.focusOnAi(t) || p.futureFeatures(t) || p.globalSubjectLaws(t)
    ensures ClassifyTwoStage(p, centroid, t, cfg) == Success(Prediction(Speculative, OneHot(Speculative), 0.0))
  {
  }

  /** A too-short sentence gets the raw centroid decision: its result depends on
      nothing but the centroid scores and the forced-Speculative cues, so the gate,
      the boosts and the thresholds are never consulted. */
  lemma TooShortIgnoresRules(p: Patterns, p': Patterns, centroid: string -> ScoreMap, t: string, cfg: Config, cfg': Config)
    requires RouteOf(p, t, cfg) == TooShort
    requires p'.actionVerbs == p.actionVerbs && p'.modals == p.modals && p'.intendFocus == p.intendFocus
    requires p'.focusOnAi == p.focusOnAi && p'.futureFeatures == p.futureFeatures && p'.globalSubjectLaws == p.globalSubjectLaws
    requires cfg'.minTokens == cfg.minTokens
    ensures ClassifyTwoStage(p', centroid, t, cfg') == ClassifyTwoStage(p, centroid, t, cfg)
    ensures ClassifyTwoStage(p, centroid, t, cfg).Success? ==>
      var r := ClassifyTwoStage(p, centroid, t, cfg).value;
      r.scores == centroid(t) && r.fineMargin == 0.0 && Has(r.scores, r.predicted)
      && ArgMax(centroid(t)) == Some(r.predicted)
      && forall l :: Has(r.scores, l) ==> Get(r.scores, l) <= Get(r.scores, r.predicted)
  {
    assert ShouldForceSpeculative(p', t) == ShouldForceSpeculative(p, t);
    assert RouteOf(p', t, cfg') == TooShort;
  }

  /** Exemption cues keep a sentence away from the rule gate. */
  lemma ExemptNeverGated(p: Patterns, centroid: string -> ScoreMap, t: string, cfg: Config)
    requires GateExempt(p, t)
    ensures RouteOf(p, t, cfg) != RuleGate
  {
  }

  /** Past the forced-Speculative cue and the length check, the rule gate (two-stage
      only) answers Irrelevant, and otherwise a prevent/deliver or user-diminish cue
      without modal language answers Actionable; both with a one-hot score dict
      and a zero margin, whatever the centroid scores. */
  lemma GuardsOneHot(p: Patterns, centroid: string -> ScoreMap, t: string, cfg: Config)
    requires !(ShouldForceSpeculative(p, t) && !p.actionVerbs(t))
    requires |Text.SplitWs(t)| >= cfg.minTokens
    ensures cfg.twoStage && IsIrrelevantByRules(p, t) ==>
      ClassifyTwoStage(p, centroid, t, cfg) == Success(Prediction(Irrelevant, Scores(Some(0.0), Some(0.0), Some(1.0)), 0.0))
    ensures !(cfg.twoStage && IsIrrelevantByRules(p, t)) && (p.preventDeliver(t) || p.userDiminish(t)) && !p.modals(t) ==>
      ClassifyTwoStage(p, centroid, t, cfg) == Success(Prediction(Actionable, Scores(Some(1.0), Some(0.0), Some(0.0)), 0.0))
  {
  }

  /** Without the two-stage switch, neither the gate patterns nor `eps_irr` are
      consulted, and Irrelevant is chosen only by a too-short centroid decision
      or as the strictly largest score. */
  lemma SingleStageIgnoresGate(p: Patterns, p': Patterns, centroid: string -> ScoreMap, t: string, cfg: Config, eps': real)
    requires !cfg.twoStage
    requires p' == p.(infrastructure := p'.infrastructure, infrastructureBroad := p'.infrastructureBroad,
                       dataLeakage := p'.dataLeakage, dataCenterReeval := p'.dataCenterReeval,
                       multipleLawsuits := p'.multipleLawsuits, decreasedEngagement := p'.decreasedEngagement,
                       innovatingBuild := p'.innovatingBuild)
    ensures ClassifyTwoStage(p', centroid, t, cfg.(epsIrr := eps')) == ClassifyTwoStage(p, centroid, t, cfg)
    ensures var r := ClassifyTwoStage(p, centroid, t, cfg);
      r.Success? && r.value.predicted == Irrelevant && RouteOf(p, t, cfg) != TooShort ==>
        Get(r.value.scores, Irrelevant) > Get(r.value.scores, Actionable)
        && Get(r.value.scores, Irrelevant) > Get(r.value.scores, Speculative)
  {
    var cfg' := cfg.(epsIrr := eps');
    assert RouteOf(p', t, cfg') == RouteOf(p, t, cfg);
    assert BoostTable(p') == BoostTable(p);
  }

  /** Where an Irrelevant label comes from: the raw centroid decision of a
      too-short sentence, the rule gate, the near-tie band above 0.5, or the
      strictly largest score outside the tau band. */
  lemma IrrelevantExplained(p: Patterns, centroid: string -> ScoreMap, t: string, cfg: Config)
    requires ClassifyTwoStage(p, centroid, t, cfg).Success?
    requires ClassifyTwoStage(p, centroid, t, cfg).value.predicted == Irrelevant
    ensures var m := ClassifyTwoStage(p, centroid, t, cfg).value.scores;
      var a, s, i := Get(m, Actionable), Get(m, Speculative), Get(m, Irrelevant);
      RouteOf(p, t, cfg) == TooShort
      || (RouteOf(p, t, cfg) == RuleGate && IsIrrelevantByRules(p, t) && !GateExempt(p, t))
      || (RouteOf(p, t, cfg) == Scored
          && ((cfg.twoStage && i > 0.5 && Abs(i - Max(a, s)) < cfg.epsIrr)
              || (Abs(a - s) >= cfg.tau && i > a && i > s)))
  {
  }

  /** The scored route, decision by decision: the scores are the centroid
      scores, boosted only with `rule_boosts`; in the two-stage eps band above
      0.5 the label is Irrelevant; and outside both bands it is the largest of
      the three scores, ties going to Actionable, then Speculative, which is
      `max` over the classes in centroid order. */
  lemma ScoredDecision(p: Patterns, centroid: string -> ScoreMap, t: string, cfg: Config)
    requires RouteOf(p, t, cfg) == Scored
    ensures ClassifyTwoStage(p, centroid, t, cfg).Success?
    ensures var r := ClassifyTwoStage(p, centroid, t, cfg).value;
      r.scores == Boosted(p, t, cfg, centroid(t))
      && (!cfg.ruleBoosts ==> r.scores == centroid(t))
    ensures var r := ClassifyTwoStage(p, centroid, t, cfg).value;
      var a, s, i := Get(r.scores, Actionable), Get(r.scores, Speculative), Get(r.scores, Irrelevant);
      cfg.twoStage && Abs(i - Max(a, s)) < cfg.epsIrr && i > 0.5 ==> r.predicted == Irrelevant
    ensures var r := ClassifyTwoStage(p, centroid, t, cfg).value;
      var a, s, i := Get(r.scores, Actionable), Get(r.scores, Speculative), Get(r.scores, Irrelevant);
      !(cfg.twoStage && Abs(i - Max(a, s)) < cfg.epsIrr && i > 0.5) && Abs(a - s) >= cfg.tau ==>
        (r.predicted == Actionable <==> a >= s && a >= i)
        && (r.predicted == Speculative <==> s > a && s >= i)
        && (r.predicted == Irrelevant <==> i > a && i > s)
        && ArgMax(Scores(Some(a), Some(s), Some(i))) == Some(r.predicted)
  {
  }

  /** Inside the tau band (and outside the eps band) the label is Actionable or
      Speculative, and Speculative whenever a forced-Speculative cue is present. */
  lemma TauBandTieBreak(p: Patterns, centroid: string -> ScoreMap, t: string, cfg: Config)
    requires RouteOf(p, t, cfg) == Scored
    requires var m := Boosted(p, t, cfg, centroid(t));
      var a, s, i := Get(m, Actionable), Get(m, Speculative), Get(m, Irrelevant);
      Abs(a - s) < cfg.tau && !(cfg.twoStage && Abs(i - Max(a, s)) < cfg.epsIrr && i > 0.5)
    ensures var r := ClassifyTwoStage(p, centroid, t, cfg).value;
      r.predicted != Irrelevant
      && (ShouldForceSpeculative(p, t) ==> r.predicted == Speculative)
      && (!ShouldForceSpeculative(p, t) ==>
            (r.predicted == Actionable <==> Get(r.scores, Actionable) >= Get(r.scores, Speculative)))
  {
  }

  /** `fine_margin` is the rounded gap between the two largest scores of all
      three classes, not the Actionable-Speculative gap. */
  lemma FineMarginIsTopGap(p: Patterns, centroid: string -> ScoreMap, t: string, cfg: Config)
    requires RouteOf(p, t, cfg) == Scored
    ensures var r := ClassifyTwoStage(p, centroid, t, cfg).value;
      var a, s, i := Get(r.scores, Actionable), Get(r.scores, Speculative), Get(r.scores, Irrelevant);
      r.fineMargin == Round3(TopGap(a, s, i))
      && -0.0005 <= r.fineMargin - TopGap(a, s, i) <= 0.0005
  {
  }

  lemma TopGapIsNotActionableSpeculativeGap()
    ensures TopGap(0.9, 0.1, 0.5) == 0.4 && Abs(0.9 - 0.1) == 0.8
  {
  }

  /** With rule boosts on, a class that a firing block lowers ends at 0.0 or
      above before the fine decision. */
  lemma BoostedLoweredNonNegative(p: Patterns, centroid: string -> ScoreMap, t: string, cfg: Config, l: Label)
    requires cfg.ruleBoosts && RouteOf(p, t, cfg) == Scored
    requires (l == Speculative && p.lawsListIntro(t))
          || (l == Actionable && (p.futureFeatures(t) || p.applyLearnings(t) || p.futureBasedOnAi(t)))
          || (l == Irrelevant && (p.investLaundry(t) || p.globalSubjectLaws(t)))
    ensures Get(ClassifyTwoStage(p, centroid, t, cfg).value.scores, l) >= 0.0
  {
    var m1 := ApplyRules(t, BoostTable(p), centroid(t));
    var tilt := [GlobalLawTilt(p)];
    BoostTableRaisesNonNegative(p);
    if l == Irrelevant && p.globalSubjectLaws(t) {
      assert tilt[0].effects[1] == Lower(Irrelevant, 0.08);
      LoweredStaysNonNegative(t, tilt, m1, l, 0);
    } else {
      LoweredScoreNonNegative(p, t, centroid(t), l);
      RulesKeepNonNegative(t, tilt, m1, l);
    }
  }
}
