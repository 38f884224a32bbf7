/** The older two-stage procedure of
    `semantic_ai_washing/tests/evaluate_classifier_on_held_out.py`: its own
    rule gate, its own boost tables, targeted corrections, and a final
    Actionable/Speculative decision. The centroid pass is the base
    classifier of the `Classify` module. */
module Evaluator {
  import opened Common
  import Text
  import opened Classify

  /** The named regular expressions of the evaluator, plus the two patterns it
      writes inline and `str.isupper`. */
  datatype EvalPatterns = EvalPatterns(
    listyTriggers: string -> bool,
    categoryWords: string -> bool,
    alongsidePhrase: string -> bool,
    genericMention: string -> bool,
    infrastructure: string -> bool,
    dataLeakage: string -> bool,
    strategyReeval: string -> bool,
    modals: string -> bool,
    actionVerbs: string -> bool,
    pctOrNum: string -> bool,
    riskTerms: string -> bool,
    futurePhrases: string -> bool,
    deploymentTerms: string -> bool,
    focusOnAi: string -> bool,
    futureFeatures: string -> bool,
    lawsuitsSubject: string -> bool,
    applyLearnings: string -> bool,
    globalSubjectLaws: string -> bool,
    lawsListIntro: string -> bool,
    focusList: string -> bool,
    infrastructureBroad: string -> bool,
    intendFocus: string -> bool,
    preventDeliver: string -> bool,
    userDiminish: string -> bool,
    futureBasedOnAi: string -> bool,
    innovatingBuild: string -> bool,
    offeringMl: string -> bool,
    providesMl: string -> bool,
    complexEstimate: string -> bool,
    investLaundry: string -> bool,
    decreasedEngagement: string -> bool,
    // inline: "glossary" / "definition" / "defined as"
    glossary: string -> bool,
    // inline: "develop(ing) and deploy(ing) ai"
    developAndDeploy: string -> bool)

  // ---------------------------------------------------------------------
  // The rule gate
  // ---------------------------------------------------------------------

  /** The checks that make a line Irrelevant before any exemption is looked at. */
  datatype FragmentReason = TooFewTokens | HeaderLike | Definition

  /** The Irrelevant cues tried after the exemptions, in source order. */
  datatype CueReason =
    | LaundryList | Alongside | GenericMention | BroadInfrastructure | Infrastructure
    | LeakageOfData | StrategyReeval | Lawsuits | LawListIntro | FutureServicesOnAi
    | LearningsApplied | InnovatingNoAction | EngagementDecreased

  datatype EvalVerdict = Fragment(fragment: FragmentReason) | Exempted | Cue(cue: CueReason) | Passed

  function TokenCount(t: string): nat
  {
    |Text.SplitWs(t)|
  }

  /** `text.endswith(":") or text.isupper()`. */
  predicate HeaderLikeText(p: EvalPatterns, t: string)
  {
    Text.EndsWith(t, ":") || Text.IsUpperString(t)
  }

  predicate FragmentCue(p: EvalPatterns, t: string, minTokens: int)
  {
    TokenCount(t) < minTokens || HeaderLikeText(p, t) || p.glossary(t)
  }

  predicate EvalExempt(p: EvalPatterns, t: string)
  {
    p.focusOnAi(t) || p.focusList(t) || p.futureFeatures(t) || p.investLaundry(t) || p.globalSubjectLaws(t)
  }

  /** The laundry-list test: a category word, some list marker (a trigger
      phrase, a comma, or " and " in the lower-cased text), more than ten
      tokens, and no action verb. */
  predicate LaundryListCue(p: EvalPatterns, t: string)
  {
    p.categoryWords(t)
    && (p.listyTriggers(t) || Text.CountChar(t, ',') >= 1 || Text.Contains(Text.Lower(t), " and "))
    && TokenCount(t) > 10 && !p.actionVerbs(t)
  }

  /** `is_irrelevant_by_rules(text, min_tokens)`, keeping which check decided. */
  function EvalGateCheck(p: EvalPatterns, t: string, minTokens: int): (v: EvalVerdict)
    ensures v.Fragment? <==> FragmentCue(p, t, minTokens)
    ensures v.Exempted? <==> !FragmentCue(p, t, minTokens) && EvalExempt(p, t)
    ensures v == Cue(LaundryList) <==> !FragmentCue(p, t, minTokens) && !EvalExempt(p, t) && LaundryListCue(p, t)
  {
    if TokenCount(t) < minTokens then Fragment(TooFewTokens)
    else if HeaderLikeText(p, t) then Fragment(HeaderLike)
    else if p.glossary(t) then Fragment(Definition)
    else if p.focusOnAi(t) || p.focusList(t) || p.futureFeatures(t) then Exempted
    else if p.investLaundry(t) then Exempted
    else if p.globalSubjectLaws(t) then Exempted
    else if LaundryListCue(p, t) then Cue(LaundryList)
    else if p.alongsidePhrase(t) && p.categoryWords(t) then Cue(Alongside)
    else if p.genericMention(t) && p.categoryWords(t) then Cue(GenericMention)
    else if p.infrastructureBroad(t) then Cue(BroadInfrastructure)
    else if p.infrastructure(t) then Cue(Infrastructure)
    else if p.dataLeakage(t) then Cue(LeakageOfData)
    else if p.strategyReeval(t) then Cue(StrategyReeval)
    else if p.lawsuitsSubject(t) then Cue(Lawsuits)
    else if p.lawsListIntro(t) then Cue(LawListIntro)
    else if p.futureBasedOnAi(t) then Cue(FutureServicesOnAi)
    else if p.applyLearnings(t) then Cue(LearningsApplied)
    else if p.innovatingBuild(t) && !p.actionVerbs(t) then Cue(InnovatingNoAction)
    else if p.decreasedEngagement(t) then Cue(EngagementDecreased)
    else Passed
  }

  predicate EvalIsIrrelevantByRules(p: EvalPatterns, t: string, minTokens: int)
  {
    var v := EvalGateCheck(p, t, minTokens);
    v.Fragment? || v.Cue?
  }

  /** The gate fires exactly when a fragment check holds (no exemption can undo
      it), or when no exemption holds and at least one Irrelevant cue does. */
  lemma EvalGateCharacterized(p: EvalPatterns, t: string, minTokens: int)
    ensures EvalIsIrrelevantByRules(p, t, minTokens) <==>
      FragmentCue(p, t, minTokens)
      || (!EvalExempt(p, t) &&
          (LaundryListCue(p, t)
           || (p.alongsidePhrase(t) && p.categoryWords(t)) || (p.genericMention(t) && p.categoryWords(t))
           || p.infrastructureBroad(t) || p.infrastructure(t) || p.dataLeakage(t) || p.strategyReeval(t)
           || p.lawsuitsSubject(t) || p.lawsListIntro(t) || p.futureBasedOnAi(t) || p.applyLearnings(t)
           || (p.innovatingBuild(t) && !p.actionVerbs(t)) || p.decreasedEngagement(t)))
  {
  }

  /** `should_force_speculative` of the evaluator. */
  predicate EvalShouldForceSpeculative(p: EvalPatterns, t: string)
  {
    (p.modals(t) && !p.actionVerbs(t)) || p.intendFocus(t) || p.focusOnAi(t) || p.focusList(t)
    || p.futureFeatures(t) || p.globalSubjectLaws(t)
  }

  // ---------------------------------------------------------------------
  // Score adjustments
  // ---------------------------------------------------------------------

  /** `adjust_scores`: two soft nudges. */
  function SoftTable(p: EvalPatterns): seq<Rule>
  {
    [ Rule(p.modals, [Raise(Speculative, 0.06)]),
      Rule(t => p.actionVerbs(t) || p.pctOrNum(t), [Raise(Actionable, 0.06)]) ]
  }

  /** `adjust_scores_v2` of the evaluator: risk, future and deployment cues,
      ML offerings, estimation methodology, operational risk. */
  function CueTable(p: EvalPatterns): seq<Rule>
  {
    [ Rule(p.riskTerms, [Raise(Speculative, 0.08)]),
      Rule(p.futurePhrases, [Raise(Speculative, 0.05)]),
      Rule(p.deploymentTerms, [Raise(Actionable, 0.08)]),
      Rule(t => p.offeringMl(t) || p.providesMl(t), [Raise(Actionable, 0.12)]),
      Rule(p.complexEstimate, [Raise(Speculative, 0.12)]),
      Rule(t => p.preventDeliver(t) || p.userDiminish(t), [Raise(Actionable, 0.06)]) ]
  }

  /** The targeted corrections `classify_two_stage` applies in place after
      the two adjustment passes. */
  function CorrectionTable(p: EvalPatterns): seq<Rule>
  {
    [ Rule(p.globalSubjectLaws, [Raise(Speculative, 0.12), Lower(Irrelevant, 0.08)]),
      Rule(p.lawsListIntro, [Raise(Irrelevant, 0.15), Lower(Speculative, 0.08)]),
      Rule(p.futureBasedOnAi, [Raise(Irrelevant, 0.12), Lower(Actionable, 0.06)]),
      Rule(p.applyLearnings, [Raise(Irrelevant, 0.1), Raise(Speculative, 0.05), Lower(Actionable, 0.08)]),
      Rule(p.developAndDeploy, [Raise(Actionable, 0.1)]),
      Rule(p.futureFeatures, [Lower(Actionable, 0.06)]),
      Rule(t => p.applyLearnings(t) && !p.deploymentTerms(t), [Raise(Irrelevant, 0.05)]),
      Rule(p.investLaundry, [Raise(Speculative, 0.12), Lower(Irrelevant, 0.06)]) ]
  }

  /** Running `rules[k..]` is running rule `k` and then `rules[k + 1..]`. */
  lemma ApplyRulesFrom(text: string, rules: seq<Rule>, k: nat, m: ScoreMap)
    requires k < |rules|
    ensures ApplyRules(text, rules[k..], m) == ApplyRules(text, rules[k + 1..], Fire(text, rules[k], m))
  {
    assert rules[k..][1..] == rules[k + 1..];
  }

  /** Every effect of every rule is a `Raise` by a non-negative amount. */
  predicate OnlyRaises(rules: seq<Rule>)
  {
    forall k, j :: 0 <= k < |rules| && 0 <= j < |rules[k].effects| ==>
      rules[k].effects[j].Raise? && rules[k].effects[j].amount >= 0.0
  }

  lemma {:induction false} EffectsOnlyRaise(m: ScoreMap, es: seq<Effect>, l: Label)
    requires forall j :: 0 <= j < |es| ==> es[j].Raise? && es[j].amount >= 0.0
    ensures Get(ApplyEffects(m, es), l) >= Get(m, l)
    ensures Has(m, l) ==> Has(ApplyEffects(m, es), l)
    decreases |es|
  {
    if es != [] {
      EffectsOnlyRaise(ApplyEffect(m, es[0]), es[1..], l);
    }
  }

  /** A table that only raises never lowers a score or removes a key. */
  lemma {:induction false} RulesOnlyRaise(text: string, rules: seq<Rule>, m: ScoreMap, l: Label)
    requires OnlyRaises(rules)
    ensures Get(ApplyRules(text, rules, m), l) >= Get(m, l)
    ensures Has(m, l) ==> Has(ApplyRules(text, rules, m), l)
    decreases |rules|
  {
    if rules != [] {
      if rules[0].fires(text) {
        EffectsOnlyRaise(m, rules[0].effects, l);
      }
      assert forall k :: 0 <= k < |rules[1..]| ==> rules[1..][k] == rules[k + 1];
      RulesOnlyRaise(text, rules[1..], Fire(text, rules[0], m), l);
    }
  }

  /** `adjust_scores(text, scores)`: a copy of the dict, nudged. */
  method AdjustScores(p: EvalPatterns, text: string, scores: ScoreMap) returns (s: ScoreMap)
    ensures s == ApplyRules(text, SoftTable(p), scores)
  {
    s := scores;
    if p.modals(text) {
      s := Set(s, Speculative, Get(s, Speculative) + 0.06);
    }
    ghost var s1 := s;
    if p.actionVerbs(text) || p.pctOrNum(text) {
      s := Set(s, Actionable, Get(s, Actionable) + 0.06);
    }
    var table := SoftTable(p);
    FireUnfold(text, table[0], scores);
    FireUnfold(text, table[1], s1);
    ApplyRulesFrom(text, table, 1, s1);
    ApplyRulesFrom(text, table, 0, scores);
  }

  /** The six guarded blocks of the evaluator's `adjust_scores_v2` compute the
      fold of its table. */
  lemma CueBlocksComputeTable(p: EvalPatterns, text: string, s0: ScoreMap, s1: ScoreMap, s2: ScoreMap,
                              s3: ScoreMap, s4: ScoreMap, s5: ScoreMap, s6: ScoreMap)
    requires s1 == if p.riskTerms(text) then Raised(s0, Speculative, 0.08) else s0
    requires s2 == if p.futurePhrases(text) then Raised(s1, Speculative, 0.05) else s1
    requires s3 == if p.deploymentTerms(text) then Raised(s2, Actionable, 0.08) else s2
    requires s4 == if p.offeringMl(text) || p.providesMl(text) then Raised(s3, Actionable, 0.12) else s3
    requires s5 == if p.complexEstimate(text) then Raised(s4, Speculative, 0.12) else s4
    requires s6 == if p.preventDeliver(text) || p.userDiminish(text) then Raised(s5, Actionable, 0.06) else s5
    ensures s6 == ApplyRules(text, CueTable(p), s0)
  {
    var table := CueTable(p);
    FireUnfold(text, table[0], s0);
    FireUnfold(text, table[1], s1);
    FireUnfold(text, table[2], s2);
    FireUnfold(text, table[3], s3);
    FireUnfold(text, table[4], s4);
    FireUnfold(text, table[5], s5);
    ApplyRulesFrom(text, table, 5, s5);
    ApplyRulesFrom(text, table, 4, s4);
    ApplyRulesFrom(text, table, 3, s3);
    ApplyRulesFrom(text, table, 2, s2);
    ApplyRulesFrom(text, table, 1, s1);
    ApplyRulesFrom(text, table, 0, s0);
  }

  /** `adjust_scores_v2(text, scores)` of the evaluator: a copy, updated block by block. */
  method AdjustScoresV2(p: EvalPatterns, text: string, scores: ScoreMap) returns (s: ScoreMap)
    ensures s == ApplyRules(text, CueTable(p), scores)
  {
    s := scores;
    if p.riskTerms(text) {
      s := Set(s, Speculative, Get(s, Speculative) + 0.08);
    }
    ghost var s1 := s;
    if p.futurePhrases(text) {
      s := Set(s, Speculative, Get(s, Speculative) + 0.05);
    }
    ghost var s2 := s;
    if p.deploymentTerms(text) {
      s := Set(s, Actionable, Get(s, Actionable) + 0.08);
    }
    ghost var s3 := s;
    if p.offeringMl(text) || p.providesMl(text) {
      s := Set(s, Actionable, Get(s, Actionable) + 0.12);
    }
    ghost var s4 := s;
    if p.complexEstimate(text) {
      s := Set(s, Speculative, Get(s, Speculative) + 0.12);
    }
    ghost var s5 := s;
    if p.preventDeliver(text) || p.userDiminish(text) {
      s := Set(s, Actionable, Get(s, Actionable) + 0.06);
    }
    CueBlocksComputeTable(p, text, scores, s1, s2, s3, s4, s5, s);
  }

  /** Both adjustment passes only add non-negative constants, and only to
      Actionable or Speculative: the Irrelevant score and key are untouched and
      no score goes down. */
  lemma AdjustmentsOnlyRaiseActionableOrSpeculative(p: EvalPatterns, text: string, m: ScoreMap, l: Label)
    ensures OnlyRaises(SoftTable(p)) && OnlyRaises(CueTable(p))
    ensures Get(ApplyRules(text, SoftTable(p), m), l) >= Get(m, l)
    ensures Get(ApplyRules(text, CueTable(p), m), l) >= Get(m, l)
    ensures Get(ApplyRules(text, SoftTable(p), m), Irrelevant) == Get(m, Irrelevant)
    ensures Get(ApplyRules(text, CueTable(p), m), Irrelevant) == Get(m, Irrelevant)
    ensures Has(ApplyRules(text, CueTable(p), m), Irrelevant) <==> Has(m, Irrelevant)
  {
    RulesOnlyRaise(text, SoftTable(p), m, l);
    RulesOnlyRaise(text, CueTable(p), m, l);
    var soft, cues := SoftTable(p), CueTable(p);
    assert forall k :: 0 <= k < |soft| && soft[k].fires(text) ==> !Touches(soft[k].effects, Irrelevant) by {
      forall k | 0 <= k < |soft| ensures !Touches(soft[k].effects, Irrelevant) {
        assert k == 0 || k == 1;
      }
    }
    assert forall k :: 0 <= k < |cues| && cues[k].fires(text) ==> !Touches(cues[k].effects, Irrelevant) by {
      forall k | 0 <= k < |cues| ensures !Touches(cues[k].effects, Irrelevant) {
        assert k in {0, 1, 2, 3, 4, 5};
      }
    }
    RulesUntouched(text, soft, m, Irrelevant);
    RulesUntouched(text, cues, m, Irrelevant);
  }

  /** The eight correction blocks, run one after another, compute the fold of
      the correction table. */
  lemma CorrectionBlocksComputeTable(p: EvalPatterns, text: string, s0: ScoreMap, s1: ScoreMap, s2: ScoreMap,
                                     s3: ScoreMap, s4: ScoreMap, s5: ScoreMap, s6: ScoreMap, s7: ScoreMap, s8: ScoreMap)
    requires s1 == if p.globalSubjectLaws(text) then Lowered(Raised(s0, Speculative, 0.12), Irrelevant, 0.08) else s0
    requires s2 == if p.lawsListIntro(text) then Lowered(Raised(s1, Irrelevant, 0.15), Speculative, 0.08) else s1
    requires s3 == if p.futureBasedOnAi(text) then Lowered(Raised(s2, Irrelevant, 0.12), Actionable, 0.06) else s2
    requires s4 == if p.applyLearnings(text) then Lowered(Raised(Raised(s3, Irrelevant, 0.1), Speculative, 0.05), Actionable, 0.08) else s3
    requires s5 == if p.developAndDeploy(text) then Raised(s4, Actionable, 0.1) else s4
    requires s6 == if p.futureFeatures(text) then Lowered(s5, Actionable, 0.06) else s5
    requires s7 == if p.applyLearnings(text) && !p.deploymentTerms(text) then Raised(s6, Irrelevant, 0.05) else s6
    requires s8 == if p.investLaundry(text) then Lowered(Raised(s7, Speculative, 0.12), Irrelevant, 0.06) else s7
    ensures s8 == ApplyRules(text, CorrectionTable(p), s0)
  {
    var table := CorrectionTable(p);
    FireUnfold(text, table[0], s0);
    FireUnfold(text, table[1], s1);
    FireUnfold(text, table[2], s2);
    FireUnfold(text, table[3], s3);
    FireUnfold(text, table[4], s4);
    FireUnfold(text, table[5], s5);
    FireUnfold(text, table[6], s6);
    FireUnfold(text, table[7], s7);
    ApplyEightRules(text, table, s0, s1, s2, s3, s4, s5, s6, s7, s8);
  }

  /** A run of eight rules, given as its nine intermediate score dicts. */
  lemma ApplyEightRules(text: string, rules: seq<Rule>, s0: ScoreMap, s1: ScoreMap, s2: ScoreMap, s3: ScoreMap,
                        s4: ScoreMap, s5: ScoreMap, s6: ScoreMap, s7: ScoreMap, s8: ScoreMap)
    requires |rules| == 8
    requires s1 == Fire(text, rules[0], s0) && s2 == Fire(text, rules[1], s1) && s3 == Fire(text, rules[2], s2)
    requires s4 == Fire(text, rules[3], s3) && s5 == Fire(text, rules[4], s4) && s6 == Fire(text, rules[5], s5)
    requires s7 == Fire(text, rules[6], s6) && s8 == Fire(text, rules[7], s7)
    ensures s8 == ApplyRules(text, rules, s0)
  {
    ApplyRulesFrom(text, rules, 7, s7);
    ApplyRulesFrom(text, rules, 6, s6);
    ApplyRulesFrom(text, rules, 5, s5);
    ApplyRulesFrom(text, rules, 4, s4);
    ApplyRulesFrom(text, rules, 3, s3);
    ApplyRulesFrom(text, rules, 2, s2);
    ApplyRulesFrom(text, rules, 1, s1);
    ApplyRulesFrom(text, rules, 0, s0);
    assert rules[0..] == rules;
  }

  /** The targeted corrections of `classify_two_stage`, updating `scores` in place. */
  method TargetedCorrections(p: EvalPatterns, text: string, scores: ScoreMap) returns (s: ScoreMap)
    ensures s == ApplyRules(text, CorrectionTable(p), scores)
  {
    s := scores;
    if p.globalSubjectLaws(text) {
      s := Set(s, Speculative, Get(s, Speculative) + 0.12);
      s := Set(s, Irrelevant, Max(0.0, Get(s, Irrelevant) - 0.08));
    }
    ghost var s1 := s;
    if p.lawsListIntro(text) {
      s := Set(s, Irrelevant, Get(s, Irrelevant) + 0.15);
      s := Set(s, Speculative, Max(0.0, Get(s, Speculative) - 0.08));
    }
    ghost var s2 := s;
    if p.futureBasedOnAi(text) {
      s := Set(s, Irrelevant, Get(s, Irrelevant) + 0.12);
      s := Set(s, Actionable, Max(0.0, Get(s, Actionable) - 0.06));
    }
    ghost var s3 := s;
    if p.applyLearnings(text) {
      s := Set(s, Irrelevant, Get(s, Irrelevant) + 0.1);
      s := Set(s, Speculative, Get(s, Speculative) + 0.05);
      s := Set(s, Actionable, Max(0.0, Get(s, Actionable) - 0.08));
    }
    ghost var s4 := s;
    if p.developAndDeploy(text) {
      s := Set(s, Actionable, Get(s, Actionable) + 0.1);
    }
    ghost var s5 := s;
    if p.futureFeatures(text) {
      s := Set(s, Actionable, Max(0.0, Get(s, Actionable) - 0.06));
    }
    ghost var s6 := s;
    if p.applyLearnings(text) && !p.deploymentTerms(text) {
      s := Set(s, Irrelevant, Get(s, Irrelevant) + 0.05);
    }
    ghost var s7 := s;
    if p.investLaundry(text) {
      s := Set(s, Speculative, Get(s, Speculative) + 0.12);
      s := Set(s, Irrelevant, Max(0.0, Get(s, Irrelevant) - 0.06));
    }
    CorrectionBlocksComputeTable(p, text, scores, s1, s2, s3, s4, s5, s6, s7, s);
  }

  /** A score a firing correction lowers ends the corrections at 0.0 or above,
      whatever the later corrections add. */
  lemma CorrectionDecrementsFloored(p: EvalPatterns, text: string, m: ScoreMap, l: Label)
    requires (l == Irrelevant && (p.globalSubjectLaws(text) || p.investLaundry(text)))
          || (l == Speculative && p.lawsListIntro(text))
          || (l == Actionable && (p.futureBasedOnAi(text) || p.applyLearnings(text) || p.futureFeatures(text)))
    ensures Get(ApplyRules(text, CorrectionTable(p), m), l) >= 0.0
  {
    var table := CorrectionTable(p);
    assert RaisesNonNegative(table);
    var k: nat :=
      if l == Speculative then 1
      else if l == Irrelevant then (if p.globalSubjectLaws(text) then 0 else 7)
      else if p.futureBasedOnAi(text) then 2
      else if p.applyLearnings(text) then 3
      else 5;
    assert table[k].effects[|table[k].effects| - 1] == Lower(l, table[k].effects[|table[k].effects| - 1].amount);
    LoweredStaysNonNegative(text, table, m, l, k);
  }

  // ---------------------------------------------------------------------
  // classify_two_stage of the evaluator
  // ---------------------------------------------------------------------

  /** Keyword arguments of the evaluator's `classify_two_stage`. */
  datatype EvalConfig = EvalConfig(tau: real, epsIrr: real, minTokens: int, ruleBoosts: bool)

  /** A label, the score dict, and its `fine_margin` entry (`None` on the rule paths). */
  datatype EvalPrediction = EvalPrediction(predicted: Label, scores: ScoreMap, fineMargin: Option<real>)

  datatype EvalRoute = EvalForced | EvalRuleGate | EvalOpsRisk | EvalScored

  function EvalRouteOf(p: EvalPatterns, t: string, cfg: EvalConfig): EvalRoute
  {
    if EvalShouldForceSpeculative(p, t) && !p.actionVerbs(t) then EvalForced
    else if EvalIsIrrelevantByRules(p, t, cfg.minTokens) then EvalRuleGate
    else if (p.preventDeliver(t) || p.userDiminish(t)) && !p.modals(t) then EvalOpsRisk
    else EvalScored
  }

  /** The three passes over the centroid scores when rule boosts are on. */
  function EvalBoosted(p: EvalPatterns, t: string, cfg: EvalConfig, raw: ScoreMap): ScoreMap
  {
    if cfg.ruleBoosts then
      ApplyRules(t, CorrectionTable(p), ApplyRules(t, CueTable(p), ApplyRules(t, SoftTable(p), raw)))
    else raw
  }

  /** The final decision as written: both branches of the tau / eps_irr test
      choose Speculative when `s >= a` and Actionable otherwise. */
  function EvalFinalLabel(a: real, s: real, irr: real, cfg: EvalConfig): Label
  {
    if Abs(a - s) < cfg.tau && irr >= Max(a, s) - cfg.epsIrr then
      (if s >= a then Speculative else Actionable)
    else
      (if s >= a then Speculative else Actionable)
  }

  /** The final decision the comment above the test describes: when A and S
      are within tau and Irrelevant is competitive, prefer Speculative. */
  function EvalFinalLabelIntended(a: real, s: real, irr: real, cfg: EvalConfig): (r: Label)
    ensures Abs(a - s) < cfg.tau && irr >= Max(a, s) - cfg.epsIrr ==> r == Speculative
    ensures !(Abs(a - s) < cfg.tau && irr >= Max(a, s) - cfg.epsIrr) ==> (r == Speculative <==> s >= a)
    ensures r != Irrelevant
  {
    if Abs(a - s) < cfg.tau && irr >= Max(a, s) - cfg.epsIrr then Speculative
    else if s >= a then Speculative else Actionable
  }

  /** As written, the thresholds never matter: the label is Speculative
      exactly when `s >= a`. */
  lemma EvalFinalLabelIgnoresThresholds(a: real, s: real, irr: real, cfg: EvalConfig)
    ensures EvalFinalLabel(a, s, irr, cfg) == (if s >= a then Speculative else Actionable)
  {
  }

  /** An input on which the written test and its comment disagree: A and S are
      0.01 apart, Irrelevant is competitive, and the label is still Actionable. */
  lemma EvalFinalLabelOverclaims()
    ensures var cfg := EvalConfig(0.05, 0.02, 6, false);
      Abs(0.50 - 0.49) < cfg.tau && 0.49 >= Max(0.50, 0.49) - cfg.epsIrr
      && EvalFinalLabel(0.50, 0.49, 0.49, cfg) == Actionable
      && EvalFinalLabelIntended(0.50, 0.49, 0.49, cfg) == Speculative
  {
  }

  /** `classify_two_stage(text, tau, eps_irr, min_tokens, use_rule_boosts)` of
      the evaluator; `Failure` is the `ValueError` of the base classifier. */
  function EvalClassifyTwoStage(p: EvalPatterns, centroid: string -> ScoreMap, t: string, cfg: EvalConfig): (r: Result<EvalPrediction>)
    ensures r.Failure? <==> EvalRouteOf(p, t, cfg) == EvalScored && centroid(t) == NoScores
    ensures r.Success? && r.value.fineMargin.Some? ==> r.value.fineMargin.value >= 0.0
  {
    match EvalRouteOf(p, t, cfg)
    case EvalForced => Success(EvalPrediction(Speculative, OneHot(Speculative), None))
    case EvalRuleGate => Success(EvalPrediction(Irrelevant, OneHot(Irrelevant), None))
    case EvalOpsRisk => Success(EvalPrediction(Actionable, OneHot(Actionable), None))
    case EvalScored =>
      match ClassifySentence(centroid, t)
      case Failure(e) => Failure(e)
      case Success(base) =>
        var m := EvalBoosted(p, t, cfg, base.1);
        var a, s, irr := Get(m, Actionable), Get(m, Speculative), Get(m, Irrelevant);
        Success(EvalPrediction(EvalFinalLabel(a, s, irr, cfg), m, Some(Round3(Abs(a - s)))))
  }

  // ---------------------------------------------------------------------
  // Properties of the evaluator's classify_two_stage
  // ---------------------------------------------------------------------

  /** Guard precedence: forced Speculative, then the rule gate (with no
      two-stage switch), then operational risk; each returns a one-hot dict
      with no fine margin. */
  lemma EvalPrecedence(p: EvalPatterns, centroid: string -> ScoreMap, t: string, cfg: EvalConfig)
    ensures EvalShouldForceSpeculative(p, t) && !p.actionVerbs(t) ==>
      EvalClassifyTwoStage(p, centroid, t, cfg) == Success(EvalPrediction(Speculative, OneHot(Speculative), None))
    ensures !(EvalShouldForceSpeculative(p, t) && !p.actionVerbs(t)) && EvalIsIrrelevantByRules(p, t, cfg.minTokens) ==>
      EvalClassifyTwoStage(p, centroid, t, cfg) == Success(EvalPrediction(Irrelevant, OneHot(Irrelevant), None))
    ensures (!(EvalShouldForceSpeculative(p, t) && !p.actionVerbs(t)) && !EvalIsIrrelevantByRules(p, t, cfg.minTokens)
             && (p.preventDeliver(t) || p.userDiminish(t)) && !p.modals(t)) ==>
      EvalClassifyTwoStage(p, centroid, t, cfg) == Success(EvalPrediction(Actionable, OneHot(Actionable), None))
  {
  }

  /** Past the rule gate the label is Speculative exactly when `s >= a`, so
      Irrelevant comes only from the gate; tau and eps_irr change nothing. */
  lemma EvalIrrelevantOnlyFromGate(p: EvalPatterns, centroid: string -> ScoreMap, t: string, cfg: EvalConfig, tau': real, eps': real)
    ensures EvalClassifyTwoStage(p, centroid, t, cfg.(tau := tau', epsIrr := eps')) == EvalClassifyTwoStage(p, centroid, t, cfg)
    ensures var r := EvalClassifyTwoStage(p, centroid, t, cfg);
      r.Success? && r.value.predicted == Irrelevant ==> EvalRouteOf(p, t, cfg) == EvalRuleGate
    ensures var r := EvalClassifyTwoStage(p, centroid, t, cfg);
      r.Success? && EvalRouteOf(p, t, cfg) == EvalScored ==>
        (r.value.predicted == Speculative <==> Get(r.value.scores, Speculative) >= Get(r.value.scores, Actionable))
  {
    var cfg' := cfg.(tau := tau', epsIrr := eps');
    assert EvalRouteOf(p, t, cfg') == EvalRouteOf(p, t, cfg);
    assert EvalBoosted(p, t, cfg', centroid(t)) == EvalBoosted(p, t, cfg, centroid(t));
  }

  /** With rule boosts off, the base centroid scores reach the decision
      unchanged; the fine margin is the rounded A/S gap. */
  lemma EvalNoBoostsKeepsScores(p: EvalPatterns, centroid: string -> ScoreMap, t: string, cfg: EvalConfig)
    requires !cfg.ruleBoosts && EvalRouteOf(p, t, cfg) == EvalScored && centroid(t) != NoScores
    ensures var r := EvalClassifyTwoStage(p, centroid, t, cfg).value;
      r.scores == centroid(t)
      && r.fineMargin == Some(Round3(Abs(Get(centroid(t), Actionable) - Get(centroid(t), Speculative))))
  {
  }

  // ---------------------------------------------------------------------
  // The evaluation loop of main
  // ---------------------------------------------------------------------

  /** One held-out row: the stripped sentence and its stripped true label. */
  datatype HeldOut = HeldOut(sentence: string, truth: string)

  /** A result row: sentence, true label, predicted label, and whether they match. */
  datatype EvalRow = EvalRow(sentence: string, truth: string, predicted: string, isMatch: bool)

  /** The prediction `main` makes for one row: the two-stage procedure when
      `--two-stage` is given, else the base classifier. */
  function Predict(p: EvalPatterns, centroid: string -> ScoreMap, twoStage: bool, cfg: EvalConfig, sent: string): Result<Label>
  {
    if twoStage then
      (match EvalClassifyTwoStage(p, centroid, sent, cfg)
       case Success(r) => Success(r.predicted)
       case Failure(e) => Failure(e))
    else
      (match ClassifySentence(centroid, sent)
       case Success(r) => Success(r.0)
       case Failure(e) => Failure(e))
  }

  function RowOf(h: HeldOut, predicted: Label): EvalRow
  {
    EvalRow(h.sentence, h.truth, LabelName(predicted), LabelName(predicted) == h.truth)
  }

  function CountMatches(rows: seq<EvalRow>): (n: nat)
    ensures n <= |rows|
  {
    if rows == [] then 0 else CountMatches(rows[..|rows| - 1]) + (if rows[|rows| - 1].isMatch then 1 else 0)
  }

  /** The main loop: one row per held-out sentence, in order, and `correct`
      counting the matching rows; the first `ValueError` stops the run. The
      classifier is the one `main` picked (see `Predict`). */
  method EvaluateHeldOut(predict: string -> Result<Label>, data: seq<HeldOut>) returns (r: Result<(seq<EvalRow>, nat)>)
    ensures r.Success? <==> forall k :: 0 <= k < |data| ==> predict(data[k].sentence).Success?
    ensures r.Success? ==>
      |r.value.0| == |data| && r.value.1 == CountMatches(r.value.0) && r.value.1 <= |data|
      && forall k :: 0 <= k < |data| ==> r.value.0[k] == RowOf(data[k], predict(data[k].sentence).value)
  {
    var rows: seq<EvalRow> := [];
    var correct: nat := 0;
    var i := 0;
    while i < |data|
      invariant 0 <= i <= |data| && |rows| == i && correct == CountMatches(rows)
      invariant forall k :: 0 <= k < i ==> predict(data[k].sentence).Success?
      invariant forall k :: 0 <= k < i ==> rows[k] == RowOf(data[k], predict(data[k].sentence).value)
    {
      var pred := predict(data[i].sentence);
      if pred.Failure? {
        return Failure(pred.error);
      }
      var row := RowOf(data[i], pred.value);
      assert (rows + [row])[..i] == rows;
      rows := rows + [row];
      if row.isMatch {
        correct := correct + 1;
      }
      i := i + 1;
    }
    return Success((rows, correct));
  }
}
