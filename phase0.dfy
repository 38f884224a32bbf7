/** The diagnostics of `diagnostics/phase0_baseline.py`: the failure taxonomy
    of a held-out evaluation, per-file label distributions with their
    pathology flags, the coverage of expected classified outputs, the
    evaluator command line and the batch summary. Subprocesses, hashing, the
    clock and the report writer are outside the model; what they yield is a
    parameter. */
module Phase0 {
  import opened Common
  import opened Text
  import Ordering
  import Classify

  // ---------------------------------------------------------------------
  // build_failure_taxonomy
  // ---------------------------------------------------------------------

  /** The labels of the classifier, in their fixed order. */
  const ClassLabels: seq<string> := ["Actionable", "Speculative", "Irrelevant"]

  /** `LABEL_TO_SHORT`; None where the lookup raises `KeyError`. */
  function ShortCode(lab: string): (r: Option<string>)
    ensures r.Some? <==> lab in ClassLabels
  {
    if lab == "Actionable" then Some("A")
    else if lab == "Speculative" then Some("S")
    else if lab == "Irrelevant" then Some("I")
    else None
  }

  type Pair = (string, string)

  /** The pairs `(t, p)` for `p` in `preds` with `p != t`, in order. */
  function PairsWith(t: string, preds: seq<string>): seq<Pair>
  {
    if preds == [] then []
    else
      var p := preds[|preds| - 1];
      PairsWith(t, preds[..|preds| - 1]) + if t != p then [(t, p)] else []
  }

  /** The ordered pairs of distinct labels: `trues` in order, each followed by
      the labels it differs from. */
  function Transitions(trues: seq<string>, labels: seq<string>): seq<Pair>
  {
    if trues == [] then []
    else Transitions(trues[..|trues| - 1], labels) + PairsWith(trues[|trues| - 1], labels)
  }

  lemma {:induction false} PairsWithMembers(t: string, preds: seq<string>)
    ensures forall x :: x in PairsWith(t, preds) <==> x.0 == t && x.1 in preds && x.1 != t
  {
    if preds != [] {
      var init := preds[..|preds| - 1];
      PairsWithMembers(t, init);
      assert preds == init + [preds[|preds| - 1]];
    }
  }

  /** A transition pairs two different labels, and every such pair is one. */
  lemma {:induction false} TransitionsMembers(trues: seq<string>, labels: seq<string>)
    ensures forall x :: x in Transitions(trues, labels) <==> x.0 in trues && x.1 in labels && x.0 != x.1
  {
    if trues != [] {
      var init := trues[..|trues| - 1];
      TransitionsMembers(init, labels);
      PairsWithMembers(trues[|trues| - 1], labels);
      assert trues == init + [trues[|trues| - 1]];
    }
  }

  /** With the classifier's labels there are exactly six transitions, in the
      order A->S, A->I, S->A, S->I, I->A, I->S. */
  lemma DefaultTransitions()
    ensures Transitions(ClassLabels, ClassLabels)
         == [("Actionable", "Speculative"), ("Actionable", "Irrelevant"),
             ("Speculative", "Actionable"), ("Speculative", "Irrelevant"),
             ("Irrelevant", "Actionable"), ("Irrelevant", "Speculative")]
  {
    var a, s, i := "Actionable", "Speculative", "Irrelevant";
    assert a != s && a != i && s != i;
    TransitionsOfThree(a, s, i);
  }

  /** Three distinct labels give six transitions, true label major. */
  lemma TransitionsOfThree(a: string, b: string, c: string)
    requires a != b && a != c && b != c
    ensures Transitions([a, b, c], [a, b, c]) == [(a, b), (a, c), (b, a), (b, c), (c, a), (c, b)]
  {
    var l := [a, b, c];
    assert [a][..0] == [];
    assert Transitions([a], l) == PairsWith(a, l);
    assert [a, b][..1] == [a];
    assert Transitions([a, b], l) == PairsWith(a, l) + PairsWith(b, l);
    assert l[..2] == [a, b];
    PairsWithOfThree(a, a, b, c);
    PairsWithOfThree(b, a, b, c);
    PairsWithOfThree(c, a, b, c);
  }

  lemma PairsWithOfThree(t: string, a: string, b: string, c: string)
    ensures PairsWith(t, [a, b, c])
         == (if t != a then [(t, a)] else []) + (if t != b then [(t, b)] else []) + (if t != c then [(t, c)] else [])
  {
    assert [a][..0] == [];
    assert PairsWith(t, [a]) == if t != a then [(t, a)] else [];
    assert [a, b][..1] == [a];
    assert PairsWith(t, [a, b]) == PairsWith(t, [a]) + if t != b then [(t, b)] else [];
    assert [a, b, c][..2] == [a, b];
  }

  /** The nested loops that list the transitions. */
  method BuildTransitions(labels: seq<string>) returns (ts: seq<Pair>)
    ensures ts == Transitions(labels, labels)
  {
    ts := [];
    for i := 0 to |labels|
      invariant ts == Transitions(labels[..i], labels)
    {
      assert labels[..i + 1][..i] == labels[..i];
      ts := AppendPairs(ts, labels[i], labels);
    }
    assert labels[..|labels|] == labels;
  }

  /** The inner loop: the pairs of one true label. */
  method AppendPairs(ts0: seq<Pair>, t: string, labels: seq<string>) returns (ts: seq<Pair>)
    ensures ts == ts0 + PairsWith(t, labels)
  {
    ts := ts0;
    for j := 0 to |labels|
      invariant ts == ts0 + PairsWith(t, labels[..j])
    {
      assert labels[..j + 1][..j] == labels[..j];
      if t != labels[j] {
        ts := ts + [(t, labels[j])];
      }
    }
    assert labels[..|labels|] == labels;
  }

  /** A details row: its `true_label` and `predicted_label` cells as text. */
  type Detail = (string, string)

  /** The pair a details row stands for, both labels stripped. */
  function RowPair(d: Detail): Pair
  {
    (Strip(d.0), Strip(d.1))
  }

  /** The rows that count toward transition `k`: stripped labels differ and
      form `k`. */
  function PairCount(details: seq<Detail>, k: Pair): (n: nat)
    ensures n <= |details|
  {
    if details == [] then 0
    else
      var d := details[|details| - 1];
      PairCount(details[..|details| - 1], k)
      + if RowPair(d).0 != RowPair(d).1 && RowPair(d) == k then 1 else 0
  }

  /** A row whose stripped labels agree is a correct prediction and counts
      toward no transition. */
  lemma AgreeingRowNotCounted(details: seq<Detail>, d: Detail, k: Pair)
    requires Strip(d.0) == Strip(d.1)
    ensures PairCount(details + [d], k) == PairCount(details, k)
  {
    assert (details + [d])[..|details|] == details;
  }

  /** The counting loop over the details rows: a counter per transition, and
      a row whose pair is not a transition is ignored. */
  method CountTransitions(details: seq<Detail>, ts: seq<Pair>) returns (counts: map<Pair, nat>)
    ensures forall k :: k in counts <==> k in ts
    ensures forall k :: k in counts ==> counts[k] == PairCount(details, k)
  {
    counts := map k | k in ts :: 0;
    for i := 0 to |details|
      invariant forall k :: k in counts <==> k in ts
      invariant forall k :: k in counts ==> counts[k] == PairCount(details[..i], k)
    {
      assert details[..i + 1][..i] == details[..i];
      var key := RowPair(details[i]);
      if key.0 == key.1 {
        continue;
      }
      if key in counts {
        counts := counts[key := counts[key] + 1];
      }
    }
    assert details[..|details|] == details;
  }

  /** One row of the taxonomy table. */
  datatype TaxRow = TaxRow(transition: string, trueLabel: string, predictedLabel: string, count: nat)

  /** Whether both labels of a transition have a short code. */
  predicate Named(x: Pair)
  {
    ShortCode(x.0).Some? && ShortCode(x.1).Some?
  }

  /** `f"{A}->{B}"` from the short codes. */
  function TransitionName(x: Pair): string
    requires Named(x)
  {
    ShortCode(x.0).value + "->" + ShortCode(x.1).value
  }

  /** The row loop; a label without a short code raises `KeyError`. */
  method EmitTaxonomy(ts: seq<Pair>, counts: map<Pair, nat>) returns (r: Result<seq<TaxRow>>)
    requires forall k :: k in ts ==> k in counts
    ensures r.Failure? <==> exists j :: 0 <= j < |ts| && !Named(ts[j])
    ensures r.Success? ==> |r.value| == |ts|
    ensures r.Success? ==> forall j :: 0 <= j < |ts| ==>
      Named(ts[j]) && r.value[j] == TaxRow(TransitionName(ts[j]), ts[j].0, ts[j].1, counts[ts[j]])
  {
    var rows: seq<TaxRow> := [];
    for j := 0 to |ts|
      invariant |rows| == j
      invariant forall q :: 0 <= q < j ==>
        Named(ts[q]) && rows[q] == TaxRow(TransitionName(ts[q]), ts[q].0, ts[q].1, counts[ts[q]])
    {
      if !Named(ts[j]) {
        return Failure("KeyError: " + (if ShortCode(ts[j].0).None? then ts[j].0 else ts[j].1));
      }
      rows := rows + [TaxRow(TransitionName(ts[j]), ts[j].0, ts[j].1, counts[ts[j]])];
    }
    return Success(rows);
  }

  /** `build_failure_taxonomy(details, labels)`: one row per transition, in
      order, with the number of rows that mispredicted that way. */
  method BuildFailureTaxonomy(details: seq<Detail>, labels: seq<string>) returns (r: Result<seq<TaxRow>>)
    ensures var ts := Transitions(labels, labels);
      r.Failure? <==> exists j :: 0 <= j < |ts| && !Named(ts[j])
    ensures r.Success? ==> |r.value| == |Transitions(labels, labels)|
    ensures var ts := Transitions(labels, labels);
      r.Success? ==> forall j :: 0 <= j < |ts| ==>
        Named(ts[j]) && r.value[j] == TaxRow(TransitionName(ts[j]), ts[j].0, ts[j].1, PairCount(details, ts[j]))
  {
    var ts := BuildTransitions(labels);
    var counts := CountTransitions(details, ts);
    r := EmitTaxonomy(ts, counts);
  }

  /** Every row with two different stripped labels, both among distinct
      `labels`, is counted under exactly one transition: the counts add up to
      the number of such rows. */
  lemma TaxonomyCountsAllMistakes(details: seq<Detail>, labels: seq<string>)
    requires Distinct(labels)
    ensures SumCounts(details, Transitions(labels, labels)) == Mistakes(details, labels)
  {
    TransitionsDistinct(labels, labels);
    TransitionsMembers(labels, labels);
    CountsAddUp(details, Transitions(labels, labels), labels);
  }

  lemma {:induction false} CountsAddUp(details: seq<Detail>, ts: seq<Pair>, labels: seq<string>)
    requires Distinct(ts)
    requires forall x :: x in ts <==> x.0 in labels && x.1 in labels && x.0 != x.1
    ensures SumCounts(details, ts) == Mistakes(details, labels)
  {
    if details != [] {
      var init := details[..|details| - 1];
      var d := details[|details| - 1];
      assert details == init + [d];
      var k := RowPair(d);
      CountsAddUp(init, ts, labels);
      SumCountsSnoc(init, d, ts);
      OccurrencesDistinct(ts, k);
    } else {
      NoRowsNoCounts(ts);
    }
  }

  /** The rows whose stripped labels differ and both belong to `labels`. */
  function Mistakes(details: seq<Detail>, labels: seq<string>): nat
  {
    if details == [] then 0
    else
      var k := RowPair(details[|details| - 1]);
      Mistakes(details[..|details| - 1], labels)
      + if k.0 != k.1 && k.0 in labels && k.1 in labels then 1 else 0
  }

  /** The sum of the counts over the transitions `ts`. */
  function SumCounts(details: seq<Detail>, ts: seq<Pair>): nat
  {
    if ts == [] then 0 else SumCounts(details, ts[..|ts| - 1]) + PairCount(details, ts[|ts| - 1])
  }

  /** How many entries of `ts` equal `k`. */
  function Occurrences(ts: seq<Pair>, k: Pair): nat
  {
    if ts == [] then 0 else Occurrences(ts[..|ts| - 1], k) + if ts[|ts| - 1] == k then 1 else 0
  }

  lemma {:induction false} SumCountsSnoc(details: seq<Detail>, d: Detail, ts: seq<Pair>)
    ensures var k := RowPair(d);
      SumCounts(details + [d], ts) == SumCounts(details, ts) + if k.0 != k.1 then Occurrences(ts, k) else 0
  {
    assert (details + [d])[..|details|] == details;
    if ts != [] {
      SumCountsSnoc(details, d, ts[..|ts| - 1]);
    }
  }

  lemma {:induction false} NoRowsNoCounts(ts: seq<Pair>)
    ensures SumCounts([], ts) == 0
  {
    if ts != [] {
      NoRowsNoCounts(ts[..|ts| - 1]);
    }
  }

  lemma {:induction false} OccurrencesDistinct(ts: seq<Pair>, k: Pair)
    requires Distinct(ts)
    ensures Occurrences(ts, k) == if k in ts then 1 else 0
  {
    if ts != [] {
      var init := ts[..|ts| - 1];
      assert ts == init + [ts[|ts| - 1]];
      OccurrencesDistinct(init, k);
      if ts[|ts| - 1] == k {
        assert k !in init;
      }
    }
  }

  lemma {:induction false} PairsWithDistinct(t: string, preds: seq<string>)
    requires forall i, j :: 0 <= i < j < |preds| ==> preds[i] != preds[j]
    ensures Distinct(PairsWith(t, preds))
  {
    if preds != [] {
      var init := preds[..|preds| - 1];
      var p := preds[|preds| - 1];
      PairsWithDistinct(t, init);
      PairsWithMembers(t, init);
      assert p !in init;
      assert (t, p) !in PairsWith(t, init);
    }
  }

  /** No entry occurs twice. */
  predicate Distinct<T(==)>(xs: seq<T>)
  {
    forall i, j :: 0 <= i < j < |xs| ==> xs[i] != xs[j]
  }

  /** Distinct labels give distinct transitions. */
  lemma {:induction false} TransitionsDistinct(trues: seq<string>, labels: seq<string>)
    requires forall i, j :: 0 <= i < j < |trues| ==> trues[i] != trues[j]
    requires forall i, j :: 0 <= i < j < |labels| ==> labels[i] != labels[j]
    ensures Distinct(Transitions(trues, labels))
  {
    if trues != [] {
      var init := trues[..|trues| - 1];
      var t := trues[|trues| - 1];
      assert forall i, j :: 0 <= i < j < |init| ==> init[i] == trues[i] && init[j] == trues[j];
      TransitionsDistinct(init, labels);
      TransitionsMembers(init, labels);
      PairsWithDistinct(t, labels);
      PairsWithMembers(t, labels);
      assert t !in init;
      DisjointAppendDistinct(Transitions(init, labels), PairsWith(t, labels));
    }
  }

  lemma DisjointAppendDistinct(a: seq<Pair>, b: seq<Pair>)
    requires Distinct(a) && Distinct(b)
    requires forall x :: x in a ==> x !in b
    ensures Distinct(a + b)
  {
    forall i, j | 0 <= i < j < |a + b| ensures (a + b)[i] != (a + b)[j] {
      if i < |a| && j >= |a| {
        assert (a + b)[i] in a && (a + b)[j] == b[j - |a|];
      }
    }
  }

  // ---------------------------------------------------------------------
  // flag_distribution_pathologies
  // ---------------------------------------------------------------------

  const IrrelevantThreshold: real := 0.99
  const SingleClassThreshold: real := 0.95

  /** A pathology reason, with the threshold its text shows. */
  datatype Reason = IrrelevantShare(threshold: real) | SingleClassShare(threshold: real)

  function Max3(a: real, b: real, c: real): (m: real)
    ensures m >= a && m >= b && m >= c && (m == a || m == b || m == c)
  {
    if a >= b && a >= c then a else if b >= c then b else c
  }

  /** `flag_distribution_pathologies`: the I-share reason first, then the
      single-class reason. */
  function FlagPathologies(aShare: real, sShare: real, iShare: real, irrThreshold: real, singleThreshold: real): (r: seq<Reason>)
    ensures IrrelevantShare(irrThreshold) in r <==> iShare >= irrThreshold
    ensures SingleClassShare(singleThreshold) in r <==> Max3(aShare, sShare, iShare) >= singleThreshold
    ensures |r| <= 2
    ensures forall j :: 0 < j < |r| ==> r[j].SingleClassShare?
    ensures r == [] <==> iShare < irrThreshold && Max3(aShare, sShare, iShare) < singleThreshold
  {
    var first := if iShare >= irrThreshold then [IrrelevantShare(irrThreshold)] else [];
    var second := if Max3(aShare, sShare, iShare) >= singleThreshold then [SingleClassShare(singleThreshold)] else [];
    first + second
  }

  /** A share at or above the I threshold is also at or above a lower
      single-class threshold, so both reasons are given. */
  lemma IrrelevantImpliesSingleClass(aShare: real, sShare: real, iShare: real, irrThreshold: real, singleThreshold: real)
    requires singleThreshold <= irrThreshold <= iShare
    ensures FlagPathologies(aShare, sShare, iShare, irrThreshold, singleThreshold)
         == [IrrelevantShare(irrThreshold), SingleClassShare(singleThreshold)]
  {
  }

  /** The two example distributions: a 99% Irrelevant file gets both
      reasons, an even one none. */
  lemma PathologyExamples()
    ensures FlagPathologies(0.01, 0.0, 0.99, IrrelevantThreshold, SingleClassThreshold)
         == [IrrelevantShare(0.99), SingleClassShare(0.95)]
    ensures FlagPathologies(0.40, 0.30, 0.30, IrrelevantThreshold, SingleClassThreshold) == []
  {
  }

  // ---------------------------------------------------------------------
  // parse_classified_distribution
  // ---------------------------------------------------------------------

  /** `str(row.get("label_pred", "")).strip()`. */
  function LabelPred(row: map<string, string>): string
  {
    Strip(if "label_pred" in row then row["label_pred"] else "")
  }

  /** The rows whose stripped `label_pred` is `lab`. */
  function CountPred(rows: seq<map<string, string>>, lab: string): (n: nat)
    ensures n <= |rows|
  {
    if rows == [] then 0
    else CountPred(rows[..|rows| - 1], lab) + if LabelPred(rows[|rows| - 1]) == lab then 1 else 0
  }

  /** Rows with one of four different labels are at most all the rows. */
  lemma {:induction false} CountPredDisjoint(rows: seq<map<string, string>>)
    ensures CountPred(rows, "Actionable") + CountPred(rows, "Speculative")
          + CountPred(rows, "Irrelevant") + CountPred(rows, "ERROR") <= |rows|
  {
    if rows != [] {
      CountPredDisjoint(rows[..|rows| - 1]);
    }
  }

  /** The diagnostics of one classified file. */
  datatype Distribution = Distribution(
    totalRows: nat, valid: nat, errorRows: nat,
    aCount: nat, sCount: nat, iCount: nat,
    aShare: real, sShare: real, iShare: real,
    flag: bool, reasons: seq<Reason>)

  /** `count / valid_total`, or 0.0 without valid rows. */
  function Share(count: nat, valid: nat): real
  {
    if valid > 0 then count as real / valid as real else 0.0
  }

  /** The row loop of `parse_classified_distribution`: the rows seen and the
      rows per predicted label. */
  method TallyLabels(rows: seq<map<string, string>>) returns (total: nat, a: nat, s: nat, i: nat, errors: nat)
    ensures total == |rows|
    ensures a == CountPred(rows, "Actionable") && s == CountPred(rows, "Speculative")
    ensures i == CountPred(rows, "Irrelevant") && errors == CountPred(rows, "ERROR")
  {
    total, a, s, i, errors := 0, 0, 0, 0, 0;
    for j := 0 to |rows|
      invariant total == j
      invariant a == CountPred(rows[..j], "Actionable") && s == CountPred(rows[..j], "Speculative")
      invariant i == CountPred(rows[..j], "Irrelevant") && errors == CountPred(rows[..j], "ERROR")
    {
      assert rows[..j + 1][..j] == rows[..j];
      total := total + 1;
      var lab := LabelPred(rows[j]);
      if lab == "Actionable" {
        a := a + 1;
      } else if lab == "Speculative" {
        s := s + 1;
      } else if lab == "Irrelevant" {
        i := i + 1;
      } else if lab == "ERROR" {
        errors := errors + 1;
      }
    }
    assert rows[..|rows|] == rows;
  }

  /** `d` is the diagnostics of a file with these rows: every row counted,
      the rows per label, the valid rows and their shares, and the pathology
      reasons of those shares, flagged when there is one. */
  predicate Diagnoses(d: Distribution, rows: seq<map<string, string>>)
  {
    d.totalRows == |rows|
    && d.aCount == CountPred(rows, "Actionable")
    && d.sCount == CountPred(rows, "Speculative")
    && d.iCount == CountPred(rows, "Irrelevant")
    && d.errorRows == CountPred(rows, "ERROR")
    && d.valid == d.aCount + d.sCount + d.iCount
    && d.aShare == Share(d.aCount, d.valid) && d.sShare == Share(d.sCount, d.valid)
    && d.iShare == Share(d.iCount, d.valid)
    && d.reasons == FlagPathologies(d.aShare, d.sShare, d.iShare, IrrelevantThreshold, SingleClassThreshold)
    && (d.flag <==> d.reasons != [])
  }

  /** `parse_classified_distribution`, given the file's rows. */
  method ParseClassifiedDistribution(rows: seq<map<string, string>>) returns (d: Distribution)
    ensures Diagnoses(d, rows)
  {
    var total, a, s, i, errors := TallyLabels(rows);
    var valid := a + s + i;
    var aShare, sShare, iShare := Share(a, valid), Share(s, valid), Share(i, valid);
    var reasons := FlagPathologies(aShare, sShare, iShare, IrrelevantThreshold, SingleClassThreshold);
    d := Distribution(total, valid, errors, a, s, i, aShare, sShare, iShare, |reasons| > 0, reasons);
  }

  /** The valid rows and the ERROR rows are disjoint parts of all rows. */
  lemma DistributionCounts(rows: seq<map<string, string>>, d: Distribution)
    requires Diagnoses(d, rows)
    ensures d.valid + d.errorRows <= d.totalRows
  {
    CountPredDisjoint(rows);
  }

  /** Shares of a file with valid rows add up to one and lie in [0, 1]. */
  lemma SharesSumToOne(a: nat, s: nat, i: nat)
    requires a + s + i > 0
    ensures var v := a + s + i;
      Share(a, v) + Share(s, v) + Share(i, v) == 1.0
      && 0.0 <= Share(a, v) <= 1.0 && 0.0 <= Share(s, v) <= 1.0 && 0.0 <= Share(i, v) <= 1.0
  {
    var v := (a + s + i) as real;
    assert a as real / v + s as real / v + i as real / v == (a as real + s as real + i as real) / v;
  }

  // ---------------------------------------------------------------------
  // evaluate_coverage
  // ---------------------------------------------------------------------

  /** The entries of `xs` not in `ys`, in order. */
  function Without(xs: seq<string>, ys: seq<string>): (r: seq<string>)
    ensures forall x :: x in r <==> x in xs && x !in ys
  {
    if xs == [] then []
    else Without(xs[..|xs| - 1], ys) + if xs[|xs| - 1] in ys then [] else [xs[|xs| - 1]]
  }

  /** `sorted(set(xs))`. */
  function SortedSet(xs: seq<string>): seq<string>
  {
    Ordering.SortStrings(Ordering.DedupeBy(xs, Id))
  }

  datatype Coverage = Coverage(expectedCount: nat, existingCount: nat, mismatchCount: nat,
                               missing: seq<string>, unexpected: seq<string>)

  /** `evaluate_coverage(expected, existing)`. */
  function EvaluateCoverage(expected: seq<string>, existing: seq<string>): (c: Coverage)
  {
    var missing := SortedSet(Without(expected, existing));
    Coverage(|set x | x in expected|, |set x | x in existing|, |missing|,
             missing, SortedSet(Without(existing, expected)))
  }

  /** `sorted(set(xs))` holds each entry of `xs` once, in strictly increasing
      order, so its length is the number of distinct entries. */
  lemma SortedSetFacts(xs: seq<string>)
    ensures var r := SortedSet(xs);
      (forall x :: x in r <==> x in xs)
      && (forall i, j :: 0 <= i < j < |r| ==> Ordering.StrLt(r[i], r[j]))
      && |r| == |set x | x in xs|
  {
    var d := Ordering.DedupeBy(xs, Id);
    var r := SortedSet(xs);
    DedupeSet(xs);
    Ordering.SortStringsCorrect(d, d);
    Ordering.PermutationDistinct(d, r);
    SortedSetStrict(d, r);
    DistinctCard(r);
    assert forall x :: x in r <==> x in multiset(d);
    SameMembersSameSet(r, xs);
  }

  lemma SameMembersSameSet(a: seq<string>, b: seq<string>)
    requires forall x :: x in a <==> x in b
    ensures (set x | x in a) == (set x | x in b)
  {
  }

  /** De-duplicating by the identity keeps every entry once. */
  lemma DedupeSet(xs: seq<string>)
    ensures var d := Ordering.DedupeBy(xs, Id);
      (forall x :: x in d <==> x in xs) && Distinct(d)
  {
    var d := Ordering.DedupeBy(xs, Id);
    Ordering.DedupeByKeys(xs, Id);
    Ordering.DedupeByDistinct(xs, Id);
    forall x ensures x in d <==> x in xs {
      assert x in d <==> Id(x) in Ordering.KeysOf(d, Id);
      assert x in xs <==> Id(x) in Ordering.KeysOf(xs, Id);
    }
  }

  lemma SortedSetStrict(d: seq<string>, r: seq<string>)
    requires Ordering.Sorted(r, Ordering.StrLt) && Distinct(r)
    ensures forall i, j :: 0 <= i < j < |r| ==> Ordering.StrLt(r[i], r[j])
  {
    Ordering.StrLtIsStrictTotalOrder();
    Ordering.SortedDistinctStrict(r, Ordering.StrLt);
  }

  /** A list without repeats has as many entries as its set. */
  lemma {:induction false} DistinctCard(r: seq<string>)
    requires Distinct(r)
    ensures |set x | x in r| == |r|
  {
    if r != [] {
      var init := r[..|r| - 1];
      var last := r[|r| - 1];
      DistinctCard(init);
      assert last !in init;
      assert (set x | x in r) == (set x | x in init) + {last};
    }
  }

  /** Missing outputs are the expected ones that do not exist, unexpected
      ones the converse, each sorted without repeats; the mismatch count is
      the number of distinct missing outputs. */
  lemma CoverageCorrect(expected: seq<string>, existing: seq<string>)
    ensures var c := EvaluateCoverage(expected, existing);
      (forall x :: x in c.missing <==> x in expected && x !in existing)
      && (forall x :: x in c.unexpected <==> x in existing && x !in expected)
      && (forall i, j :: 0 <= i < j < |c.missing| ==> Ordering.StrLt(c.missing[i], c.missing[j]))
      && (forall i, j :: 0 <= i < j < |c.unexpected| ==> Ordering.StrLt(c.unexpected[i], c.unexpected[j]))
      && c.mismatchCount == |(set x | x in expected) - (set x | x in existing)|
  {
    var c := EvaluateCoverage(expected, existing);
    assert c.missing == SortedSet(Without(expected, existing));
    assert c.unexpected == SortedSet(Without(existing, expected));
    SortedSetFacts(Without(expected, existing));
    SortedSetFacts(Without(existing, expected));
    WithoutSet(expected, existing);
  }

  lemma WithoutSet(xs: seq<string>, ys: seq<string>)
    ensures (set x | x in Without(xs, ys)) == (set x | x in xs) - (set x | x in ys)
  {
  }

  /** When every existing output was expected, nothing is unexpected. */
  lemma ExistingSubsetNoUnexpected(expected: seq<string>, existing: seq<string>)
    requires forall x :: x in existing ==> x in expected
    ensures EvaluateCoverage(expected, existing).unexpected == []
  {
    WithoutCovered(existing, expected);
  }

  lemma {:induction false} WithoutCovered(xs: seq<string>, ys: seq<string>)
    requires forall x :: x in xs ==> x in ys
    ensures Without(xs, ys) == []
  {
    if xs != [] {
      assert xs[|xs| - 1] in xs;
      WithoutCovered(xs[..|xs| - 1], ys);
    }
  }

  // ---------------------------------------------------------------------
  // run_held_out_evaluation: the command line
  // ---------------------------------------------------------------------

  const EvaluatorModule := "semantic_ai_washing.tests.evaluate_classifier_on_held_out"

  /** The evaluator's command line before filtering; the numbers are passed
      already formatted. */
  function EvalCommand(python: string, evalFile: string, twoStage: bool, ruleBoosts: bool,
                       tau: string, epsIrr: string, minTokens: string): seq<string>
  {
    [python, "-m", EvaluatorModule,
     "--file", evalFile,
     if twoStage then "--two-stage" else "--no-two-stage",
     if ruleBoosts then "--rule-boosts" else "--no-rule-boosts",
     "--tau", tau, "--eps-irr", epsIrr, "--min-tokens", minTokens]
  }

  predicate NegativeFlag(arg: string)
  {
    arg == "--no-two-stage" || arg == "--no-rule-boosts"
  }

  /** The list comprehension that drops the negative flags. */
  function DropNegativeFlags(cmd: seq<string>): (r: seq<string>)
    ensures |r| <= |cmd|
  {
    if cmd == [] then []
    else DropNegativeFlags(cmd[..|cmd| - 1]) + if NegativeFlag(cmd[|cmd| - 1]) then [] else [cmd[|cmd| - 1]]
  }

  /** The filtered command keeps exactly the arguments that are not negative
      flags. */
  lemma {:induction false} DropNegativeFlagsMembers(cmd: seq<string>)
    ensures forall x :: x in DropNegativeFlags(cmd) <==> x in cmd && !NegativeFlag(x)
  {
    if cmd != [] {
      DropNegativeFlagsMembers(cmd[..|cmd| - 1]);
      assert cmd == cmd[..|cmd| - 1] + [cmd[|cmd| - 1]];
    }
  }

  /** The command that runs is the built one with the negative flags taken
      out: a positive flag is there exactly when it is switched on, and every
      other argument stays, in order (provided no passed value is itself
      spelled like a negative flag). */
  lemma FilteredCommand(python: string, evalFile: string, twoStage: bool, ruleBoosts: bool,
                        tau: string, epsIrr: string, minTokens: string)
    requires !NegativeFlag(python) && !NegativeFlag(evalFile)
    requires !NegativeFlag(tau) && !NegativeFlag(epsIrr) && !NegativeFlag(minTokens)
    ensures DropNegativeFlags(EvalCommand(python, evalFile, twoStage, ruleBoosts, tau, epsIrr, minTokens))
      == [python, "-m", EvaluatorModule, "--file", evalFile]
         + (if twoStage then ["--two-stage"] else [])
         + (if ruleBoosts then ["--rule-boosts"] else [])
         + ["--tau", tau, "--eps-irr", epsIrr, "--min-tokens", minTokens]
  {
    var head := [python, "-m", EvaluatorModule, "--file", evalFile];
    var f1 := if twoStage then "--two-stage" else "--no-two-stage";
    var f2 := if ruleBoosts then "--rule-boosts" else "--no-rule-boosts";
    var tail := ["--tau", tau, "--eps-irr", epsIrr, "--min-tokens", minTokens];
    assert EvalCommand(python, evalFile, twoStage, ruleBoosts, tau, epsIrr, minTokens)
      == head + [f1] + [f2] + tail;
    DropNegativeFlagsAppend(head + [f1] + [f2], tail);
    DropNegativeFlagsAppend(head + [f1], [f2]);
    DropNegativeFlagsAppend(head, [f1]);
    FixedArgumentsNotNegative();
    KeptFive(python, "-m", EvaluatorModule, "--file", evalFile);
    KeptSix("--tau", tau, "--eps-irr", epsIrr, "--min-tokens", minTokens);
  }

  /** Which of the command's fixed arguments are negative flags. */
  lemma FixedArgumentsNotNegative()
    ensures !NegativeFlag("-m") && !NegativeFlag(EvaluatorModule) && !NegativeFlag("--file")
    ensures !NegativeFlag("--tau") && !NegativeFlag("--eps-irr") && !NegativeFlag("--min-tokens")
    ensures !NegativeFlag("--two-stage") && !NegativeFlag("--rule-boosts")
  {
    NotNegativeByLength("-m");
    NotNegativeByLength(EvaluatorModule);
    NotNegativeByLength("--file");
    NotNegativeByLength("--tau");
    NotNegativeByLength("--eps-irr");
    NotNegativeByLength("--min-tokens");
    NotNegativeByLength("--two-stage");
    NotNegativeByLength("--rule-boosts");
  }

  lemma NotNegativeByLength(x: string)
    requires |x| != |"--no-two-stage"| && |x| != |"--no-rule-boosts"|
    ensures !NegativeFlag(x)
  {
  }

  lemma KeptFive(a: string, b: string, c: string, d: string, e: string)
    requires !NegativeFlag(a) && !NegativeFlag(b) && !NegativeFlag(c) && !NegativeFlag(d) && !NegativeFlag(e)
    ensures DropNegativeFlags([a, b, c, d, e]) == [a, b, c, d, e]
  {
    KeptAll([a, b, c, d, e]);
  }

  lemma KeptSix(a: string, b: string, c: string, d: string, e: string, f: string)
    requires !NegativeFlag(a) && !NegativeFlag(b) && !NegativeFlag(c)
    requires !NegativeFlag(d) && !NegativeFlag(e) && !NegativeFlag(f)
    ensures DropNegativeFlags([a, b, c, d, e, f]) == [a, b, c, d, e, f]
  {
    KeptAll([a, b, c, d, e, f]);
  }

  lemma {:induction false} DropNegativeFlagsAppend(a: seq<string>, b: seq<string>)
    ensures DropNegativeFlags(a + b) == DropNegativeFlags(a) + DropNegativeFlags(b)
  {
    if b == [] {
      assert a + b == a;
    } else {
      var init := b[..|b| - 1];
      assert a + b == (a + init) + [b[|b| - 1]];
      DropNegativeFlagsAppend(a, init);
    }
  }

  lemma {:induction false} KeptAll(xs: seq<string>)
    requires forall x :: x in xs ==> !NegativeFlag(x)
    ensures DropNegativeFlags(xs) == xs
  {
    if xs != [] {
      assert xs[|xs| - 1] in xs;
      KeptAll(xs[..|xs| - 1]);
    }
  }

  // ---------------------------------------------------------------------
  // run_batch_sanity: outputs, coverage, rows and the summary
  // ---------------------------------------------------------------------

  const InputSuffix := "_ai_sentences.txt"
  const OutputSuffix := "_classified.csv"

  /** `path.replace("_ai_sentences.txt", "_classified.csv")`. */
  function ExpectedOutput(path: string): string
  {
    ReplaceAll(path, InputSuffix, OutputSuffix)
  }

  /** One row of the distribution table: the diagnostics of an existing
      output, or the placeholder of a missing one. */
  datatype FileRow = FileRow(inputFile: string, classifiedFile: string, dist: Distribution, missingOutput: bool)

  const EmptyDistribution := Distribution(0, 0, 0, 0, 0, 0, 0.0, 0.0, 0.0, false, [])

  datatype BatchSummary = BatchSummary(processed: nat, skipped: nat, errors: nat,
                                       attempted: bool, succeeded: bool, coverage: Coverage)

  /** The outputs that exist, in order. */
  function Existing(outputs: seq<string>, present: string -> bool): (r: seq<string>)
    ensures forall x :: x in r <==> x in outputs && present(x)
  {
    if outputs == [] then []
    else Existing(outputs[..|outputs| - 1], present) + if present(outputs[|outputs| - 1]) then [outputs[|outputs| - 1]] else []
  }

  /** The expected output of each input, in order. */
  function ExpectedOutputs(inputFiles: seq<string>): (r: seq<string>)
    ensures |r| == |inputFiles|
    ensures forall j :: 0 <= j < |r| ==> r[j] == ExpectedOutput(inputFiles[j])
  {
    if inputFiles == [] then []
    else ExpectedOutputs(inputFiles[..|inputFiles| - 1]) + [ExpectedOutput(inputFiles[|inputFiles| - 1])]
  }

  /** Whether `row` is the distribution row of `input` whose output is `out`:
      the diagnostics of the output's rows when it exists, the empty
      placeholder when it does not. */
  predicate RowFor(row: FileRow, input: string, out: string,
                   present: string -> bool, table: string -> seq<map<string, string>>)
  {
    row.inputFile == input && row.classifiedFile == out
    && (row.missingOutput <==> !present(out))
    && (!row.missingOutput ==> Diagnoses(row.dist, table(out)))
    && (row.missingOutput ==> row.dist == EmptyDistribution)
  }

  /** The distribution loop: diagnostics of each existing output, a
      placeholder row for each missing one. */
  method DistributionRows(inputFiles: seq<string>, outputs: seq<string>,
                          present: string -> bool, table: string -> seq<map<string, string>>)
    returns (rows: seq<FileRow>)
    requires |outputs| == |inputFiles|
    ensures |rows| == |inputFiles|
    ensures forall j :: 0 <= j < |inputFiles| ==> RowFor(rows[j], inputFiles[j], outputs[j], present, table)
  {
    rows := [];
    for j := 0 to |inputFiles|
      invariant |rows| == j
      invariant forall q :: 0 <= q < j ==> RowFor(rows[q], inputFiles[q], outputs[q], present, table)
    {
      var out := outputs[j];
      var row: FileRow;
      if present(out) {
        var d := ParseClassifiedDistribution(table(out));
        row := FileRow(inputFiles[j], out, d, false);
      } else {
        row := FileRow(inputFiles[j], out, EmptyDistribution, true);
      }
      rows := rows + [row];
    }
  }

  /** The bookkeeping of `run_batch_sanity` once the files are chosen and the
      reclassification (if `force`) has run: `reclassified` says whether that
      command completed, `present` which outputs are then present and `table`
      the rows of each. */
  method RunBatchSanity(inputFiles: seq<string>, force: bool, reclassified: bool,
                        present: string -> bool, table: string -> seq<map<string, string>>)
    returns (rows: seq<FileRow>, summary: BatchSummary)
    ensures summary.processed + summary.skipped == |inputFiles| && summary.errors == 0
    ensures summary.succeeded <==> force && reclassified
    ensures summary.attempted == force
    ensures summary.processed == if summary.succeeded then |inputFiles| else 0
    ensures summary.coverage
      == EvaluateCoverage(ExpectedOutputs(inputFiles), Existing(ExpectedOutputs(inputFiles), present))
    ensures summary.coverage.unexpected == []
    ensures |rows| == |inputFiles|
    ensures forall j :: 0 <= j < |inputFiles| ==>
      RowFor(rows[j], inputFiles[j], ExpectedOutput(inputFiles[j]), present, table)
  {
    var expected := ExpectedOutputs(inputFiles);
    var succeeded := force && reclassified;
    var existing := Existing(expected, present);
    var coverage := EvaluateCoverage(expected, existing);
    ExistingSubsetNoUnexpected(expected, existing);
    rows := DistributionRows(inputFiles, expected, present, table);
    var processed := if succeeded then |inputFiles| else 0;
    var skipped := if succeeded then 0 else |inputFiles|;
    summary := BatchSummary(processed, skipped, 0, force, succeeded, coverage);
  }
}
