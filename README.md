# semantic-patterns, modelled in Dafny

This project models the core of *semantic-patterns*, a pipeline that classifies sentences from SEC 10-K filings that mention AI as **Actionable**, **Speculative** or **Irrelevant** ("AI washing"), and then counts those labels per firm and year. The model covers:

- the two-stage classifier (`classify_two_stage`): a forced-Speculative cue, a minimum-length check, a rule gate for Irrelevant sentences, rule boosts applied to centroid similarity scores, and a margin-based final decision;
- the held-out evaluator's own copy of that classifier, with its targeted corrections;
- the aggregation of classification files into firm-year label counts, in its current and its older version;
- the phase-0 baseline diagnostics: failure taxonomy, pathology flags, label distribution, coverage and the batch sanity pass;
- the batch classifier that labels every extracted sentence file and skips files already done;
- the sentence cleaner (whitespace normalisation, the incomplete-sentence checks, de-duplication);
- the keyword sentence filter (keyword loading, sentence segmentation, whole-word matching);
- AI-sentence extraction from filings, and its older script;
- the SEC filing index (its year glob `20[12][1-4]` admits the years 2011 to 2014 and 2021 to 2024), and its older copy;
- company-name cleaning for the patent lookup;
- the Compustat crosswalk helpers (CIK and ticker normalisation, matching, the gvkey list and the query parameters).

The sentence embeddings and the centroid scores are a parameter `centroid: string -> ScoreMap`. Every regular expression is a predicate given as a parameter (`Patterns`) or written out over characters. A file system is a list of entries given to the model. Operations that change state step by step (the adjustment blocks, the scanning loops, the batch runs) are methods with loop invariants, proved against the functions that specify them.

## Model

| member | source | states |
|---|---|---|
| Classify.ParseLabel | src/semantic_ai_washing/aggregation/aggregate_classification_counts.py:35 | a label name parses back to the label it names, and to nothing else |
| Classify.ParseLabelName | src/semantic_ai_washing/aggregation/aggregate_classification_counts.py:35 | writing a label and parsing it gives the same label |
| Classify.ArgMax | src/semantic_ai_washing/core/classify.py:48 | the chosen class is present with the largest score, any class earlier in centroid order scores strictly less, and there is no choice exactly when the dict is empty |
| Classify.Round3 | src/semantic_ai_washing/core/classify.py:218 | the result is within 0.0005 of the input and keeps a non-negative input non-negative |
| Classify.AdjustScoresV2 | src/semantic_ai_washing/core/classify.py:84-117 | the nine guarded blocks, run in place, give the fold of the rule table over the scores |
| Classify.BlocksComputeTable | src/semantic_ai_washing/core/classify.py:84-117 | the chain of block results equals the fold of the rule table |
| Classify.BoostTableRaisesNonNegative | src/semantic_ai_washing/core/classify.py:84-117 | every boost in the table adds a non-negative amount |
| Classify.IrrelevantMovedOnlyByFourRules | src/semantic_ai_washing/core/classify.py:84-117 | only the law-list, applying-learnings, investment-list and future-based blocks move the Irrelevant score |
| Classify.LoweredScoreNonNegative | src/semantic_ai_washing/core/classify.py:84-117 | a class a firing block lowers ends the adjustment at 0.0 or above |
| Classify.GateCheck | src/semantic_ai_washing/core/classify.py:120-146 | the verdict is an exemption exactly when an exemption cue matches, and a gated verdict never comes with one |
| Classify.GateCharacterized | src/semantic_ai_washing/core/classify.py:120-146 | the gate fires exactly when no exemption matches and some Irrelevant cue does |
| Classify.ExemptNeverGated | src/semantic_ai_washing/core/classify.py:120-126 | a sentence with an exemption cue never takes the rule-gate route |
| Classify.ClassifySentence | src/semantic_ai_washing/core/classify.py:20-49 | the label is present in the centroid scores with the largest of them, and on a tie it is the first in centroid order (the `max` of `ArgMax`); an empty score dict is the error |
| Classify.SecondLargest | src/semantic_ai_washing/core/classify.py:204 | the result is one of the three scores, with at least two of them at or above it and at least two at or below it |
| Classify.TopGap | src/semantic_ai_washing/core/classify.py:203-205 | the gap is non-negative, and zero exactly when the two largest scores tie |
| Classify.ClassifyTwoStage | src/semantic_ai_washing/core/classify.py:160-219 | the error happens exactly for a too-short sentence without centroid scores, and a prediction has a non-negative fine margin |
| Classify.ForcedSpeculativeFirst | src/semantic_ai_washing/core/classify.py:169-171 | future or intent language without action verbs is Speculative, one-hot, before any other check |
| Classify.TooShortIgnoresRules | src/semantic_ai_washing/core/classify.py:173-179 | a sentence below the token minimum gets the centroid label, the first maximal score in centroid order, with the raw scores and margin 0, whatever the rule patterns and the other settings |
| Classify.GuardsOneHot | src/semantic_ai_washing/core/classify.py:181-187 | the rule gate answers Irrelevant and the ops-risk cue answers Actionable, both one-hot with a zero margin |
| Classify.SingleStageIgnoresGate | src/semantic_ai_washing/core/classify.py:181-208 | without the two-stage flag the gate patterns and eps_irr change nothing, and an Irrelevant label past the length check has the strictly largest score |
| Classify.IrrelevantExplained | src/semantic_ai_washing/core/classify.py:207-216 | an Irrelevant label comes from the length check, from the gate, from the eps_irr band, or from an Irrelevant score ahead of both others outside the tau band |
| Classify.ScoredDecision | src/semantic_ai_washing/core/classify.py:189-216 | on the scored route the scores are the centroid scores, boosted only with rule_boosts and left unchanged without; in the two-stage eps_irr band with Irrelevant above 0.5 the label is Irrelevant; outside both bands it is the strictly ranked argmax (ties go Actionable, then Speculative), each label exactly when its score leads as stated, which is `max` over the classes in centroid order |
| Classify.TauBandTieBreak | src/semantic_ai_washing/core/classify.py:209-214 | inside the tau band (outside the eps_irr band) the label is Speculative with a forced cue, and otherwise Actionable exactly when its score is at least Speculative |
| Classify.FineMarginIsTopGap | src/semantic_ai_washing/core/classify.py:200-218 | the fine margin is the rounded gap between the two largest of all three scores |
| Classify.TopGapIsNotActionableSpeculativeGap | src/semantic_ai_washing/core/classify.py:203-205 | a score triple whose top gap (0.4) differs from its Actionable-Speculative gap (0.8) |
| Classify.BoostedLoweredNonNegative | src/semantic_ai_washing/core/classify.py:192-197 | with boosts on, a lowered class reaches the final decision at 0.0 or above |
| Evaluator.EvalGateCheck | src/semantic_ai_washing/tests/evaluate_classifier_on_held_out.py:79-150 | the verdict is a fragment exactly when a fragment check holds, an exemption exactly when none does and an exemption cue does, and each cue verdict in source order |
| Evaluator.EvalGateCharacterized | src/semantic_ai_washing/tests/evaluate_classifier_on_held_out.py:79-150 | the gate fires exactly when a fragment check holds, or no exemption and some Irrelevant cue hold |
| Evaluator.AdjustScores | src/semantic_ai_washing/tests/evaluate_classifier_on_held_out.py:153-160 | the two soft nudges, run on a copy, give the fold of their table over the scores |
| Evaluator.AdjustScoresV2 | src/semantic_ai_washing/tests/evaluate_classifier_on_held_out.py:54-76 | the six cue blocks, run on a copy, give the fold of their table over the scores |
| Evaluator.CueBlocksComputeTable | src/semantic_ai_washing/tests/evaluate_classifier_on_held_out.py:54-76 | the chain of block results equals the fold of the cue table |
| Evaluator.AdjustmentsOnlyRaiseActionableOrSpeculative | src/semantic_ai_washing/tests/evaluate_classifier_on_held_out.py:54-76 | both adjustment passes only raise scores, and leave the Irrelevant score and its presence as they were |
| Evaluator.TargetedCorrections | src/semantic_ai_washing/tests/evaluate_classifier_on_held_out.py:194-226 | the eight correction blocks, run in place, give the fold of the correction table |
| Evaluator.CorrectionBlocksComputeTable | src/semantic_ai_washing/tests/evaluate_classifier_on_held_out.py:194-226 | the chain of correction results equals the fold of the correction table |
| Evaluator.CorrectionDecrementsFloored | src/semantic_ai_washing/tests/evaluate_classifier_on_held_out.py:194-226 | a score that a firing correction lowers ends the corrections at 0.0 or above |
| Evaluator.EvalFinalLabelIntended | src/semantic_ai_washing/tests/evaluate_classifier_on_held_out.py:231-235 | inside the tau band with Irrelevant within eps_irr of the top the label is Speculative; otherwise Speculative exactly when s >= a; never Irrelevant |
| Evaluator.EvalFinalLabelIgnoresThresholds | src/semantic_ai_washing/tests/evaluate_classifier_on_held_out.py:231-235 | as written the label is Speculative exactly when s >= a, whatever tau and eps_irr |
| Evaluator.EvalFinalLabelOverclaims | src/semantic_ai_washing/tests/evaluate_classifier_on_held_out.py:231-235 | an input where the written test answers Actionable and the intended one Speculative |
| Evaluator.EvalClassifyTwoStage | src/semantic_ai_washing/tests/evaluate_classifier_on_held_out.py:175-238 | the error happens exactly on the scored route without centroid scores, and a fine margin, when present, is non-negative |
| Evaluator.EvalPrecedence | src/semantic_ai_washing/tests/evaluate_classifier_on_held_out.py:176-186 | forced-Speculative, then the rule gate, then the ops-risk cue each decide one-hot, without a margin, before any score |
| Evaluator.EvalIrrelevantOnlyFromGate | src/semantic_ai_washing/tests/evaluate_classifier_on_held_out.py:228-235 | tau and eps_irr change nothing, an Irrelevant label comes only from the gate, and past it the label is Speculative exactly when s >= a |
| Evaluator.EvalNoBoostsKeepsScores | src/semantic_ai_washing/tests/evaluate_classifier_on_held_out.py:189-237 | with boosts off the centroid scores reach the decision unchanged, and the margin is the rounded A-S gap |
| Evaluator.EvaluateHeldOut | src/semantic_ai_washing/tests/evaluate_classifier_on_held_out.py:253-270 | the run succeeds exactly when every prediction does; then it has one row per held-out sentence, in order, and the match count of those rows |
| Aggregate.FirstCikAt | src/semantic_ai_washing/aggregation/aggregate_classification_counts.py:54 | a found position holds an `edgar_data_<digits>_` match and no earlier position from the start does; none found means no match anywhere after the start |
| Aggregate.YearOf | src/semantic_ai_washing/aggregation/aggregate_classification_counts.py:51-52 | -1 exactly when the name does not start with four digits, else a non-negative year |
| Aggregate.ExtractYearAndCik | src/semantic_ai_washing/aggregation/aggregate_classification_counts.py:41-57 | the year is -1 exactly without four leading digits, and the CIK is all digits unless it is "unknown" |
| Aggregate.CikUnknown | src/semantic_ai_washing/aggregation/aggregate_classification_counts.py:54-55 | the CIK is "unknown" exactly when `edgar_data_<digits>_` occurs nowhere in the name |
| Aggregate.CikAfterPrefix | src/aggregation/aggregate_classification_counts.py:48-50 | after a prefix without an 'e', the CIK found is the one written after the marker |
| Aggregate.CikSearchFirst | src/aggregation/aggregate_classification_counts.py:49 | the search returns the digits of the leftmost match, or "unknown" without one |
| Aggregate.ExtractFromFilingName | src/semantic_ai_washing/aggregation/aggregate_classification_counts.py:44-49 | a name `<date>_<form>_edgar_data_<cik>_...` gives back the date's year and the CIK |
| Aggregate.TxtLineLabel | src/semantic_ai_washing/aggregation/aggregate_classification_counts.py:66-71 | a label comes only from a line holding the Label separator, and is non-empty and stripped |
| Aggregate.TxtLineLabelOfWritten | src/aggregation/aggregate_classification_counts.py:64-70 | a line written as a sentence, the Label separator, X and a closing separator gives back X |
| Aggregate.ParseLabelsFromTxtFile | src/semantic_ai_washing/aggregation/aggregate_classification_counts.py:60-74 | the loop returns the labels of the lines in order, and none for a file that cannot be opened |
| Aggregate.TxtLabelsStripped | src/aggregation/aggregate_classification_counts.py:55-73 | every label of a text file is non-empty and stripped |
| Aggregate.FieldIndexSound | src/semantic_ai_washing/aggregation/aggregate_classification_counts.py:89-93 | each key of the field index names a non-blank header with that stripped, lower-cased key, and every non-blank header's key is present |
| Aggregate.LabelFieldChoice | src/semantic_ai_washing/aggregation/aggregate_classification_counts.py:94-97 | the chosen column is label_pred when present, else label, and there is none exactly when neither header exists |
| Aggregate.ParseLabelsFromCsvFile | src/semantic_ai_washing/aggregation/aggregate_classification_counts.py:77-110 | the loop returns the stripped non-blank values of the chosen column in row order, and none without a column or a readable file |
| Aggregate.CsvLabelsStripped | src/semantic_ai_washing/aggregation/aggregate_classification_counts.py:99-107 | every label of a CSV file is non-empty and stripped |
| Aggregate.ParseLabelsFromFile | src/semantic_ai_washing/aggregation/aggregate_classification_counts.py:113-119 | the dispatch returns the CSV parser's labels for `_classified.csv`, the text parser's for `_classified.txt` |
| Aggregate.ParsedLabelsStripped | src/semantic_ai_washing/aggregation/aggregate_classification_counts.py:60-119 | all parsed labels are non-empty and stripped, and a file with another suffix gives none |
| Aggregate.KeepClassified | src/semantic_ai_washing/aggregation/aggregate_classification_counts.py:125-128 | every kept path was walked and has a classified suffix |
| Aggregate.ClassifiedFilesSorted | src/semantic_ai_washing/aggregation/aggregate_classification_counts.py:122-130 | the classified files are sorted, a permutation of the kept paths, and all have a classified suffix |
| Aggregate.AddLabelsCounts | src/semantic_ai_washing/aggregation/aggregate_classification_counts.py:163-165 | a file's labels add to each of A, S and I of its firm-year exactly the number of its labels of that class (so the total rises by its valid labels), and change no other firm-year |
| Aggregate.AddLabelCounts | src/aggregation/aggregate_classification_counts.py:108-110 | one label adds one to the count of its own class in its firm-year, nothing for a label outside the three, and nothing elsewhere |
| Aggregate.CountLabels | src/semantic_ai_washing/aggregation/aggregate_classification_counts.py:163-165 | the inner loop leaves the counts that adding the file's labels one by one gives |
| Aggregate.RowsFor | src/semantic_ai_washing/aggregation/aggregate_classification_counts.py:169-190 | one row per key, in order, with that key's counts (zero when never counted) |
| Aggregate.EmitRows | src/semantic_ai_washing/aggregation/aggregate_classification_counts.py:170-190 | the row loop returns one row per sorted firm-year key |
| Aggregate.BuildAggregatedRows | src/semantic_ai_washing/aggregation/aggregate_classification_counts.py:133-192 | the rows are those of the sorted seen firm-years over the scan's counts, with the classified, used and firm-year totals; each row's A_count, S_count and I_count are the numbers of Actionable, Speculative and Irrelevant labels in its firm-year's files, and its total their valid labels |
| Aggregate.LegacyAggregate | src/aggregation/aggregate_classification_counts.py:76-139 | the older run fails exactly when a dated text file cannot be opened; otherwise its rows and totals are those of the scan, and each row counts its firm-year's Actionable, Speculative and Irrelevant labels |
| Aggregate.LegacyScan | src/aggregation/aggregate_classification_counts.py:88-111 | the loop stops at the first unreadable dated file, and otherwise returns the scan over all files |
| Aggregate.KeepLegacy | src/aggregation/aggregate_classification_counts.py:88-91 | every kept path was walked and ends `_classified.txt` |
| Aggregate.StepInvariant | src/semantic_ai_washing/aggregation/aggregate_classification_counts.py:149-165 | one file keeps the scan invariant: counted firm-years were seen, seen ones are distinct, used files are at most the files |
| Aggregate.ScanAggKeysSeen | src/semantic_ai_washing/aggregation/aggregate_classification_counts.py:167 | after the scan the invariant holds over the firm-years of all file names |
| Aggregate.ScanCountsLabels | src/semantic_ai_washing/aggregation/aggregate_classification_counts.py:149-165 | a firm-year's count of each class is the number of labels of that class in its files, and its total the number of valid labels: none lost, none counted twice, under another class or elsewhere |
| Aggregate.RowsCountLabels | src/semantic_ai_washing/aggregation/aggregate_classification_counts.py:149-192 | every output row's A_count, S_count, I_count and total_count are the labels of each class, and all valid labels, in the files of its firm-year |
| Aggregate.RowsOrderedAndComplete | src/semantic_ai_washing/aggregation/aggregate_classification_counts.py:167-170 | the rows are strictly ordered by (cik, year), and their firm-years are exactly those of the files |
| Aggregate.SortedKeys | src/aggregation/aggregate_classification_counts.py:114-117 | sorting the distinct seen firm-years orders them strictly and keeps exactly them |
| Phase0.ShortCode | src/semantic_ai_washing/diagnostics/phase0_baseline.py:26 | a short code exists exactly for the three classifier labels |
| Phase0.PairsWithMembers | src/semantic_ai_washing/diagnostics/phase0_baseline.py:82-84 | the pairs of one true label are exactly it with each different predicted label |
| Phase0.TransitionsMembers | src/semantic_ai_washing/diagnostics/phase0_baseline.py:80-84 | a transition pairs a true label with a different predicted label, and every such pair is one |
| Phase0.DefaultTransitions | src/semantic_ai_washing/diagnostics/phase0_baseline.py:77-84 | the classifier's labels give exactly six transitions, true label major |
| Phase0.TransitionsOfThree | src/semantic_ai_washing/diagnostics/phase0_baseline.py:80-84 | any three distinct labels give six transitions in that order |
| Phase0.BuildTransitions | src/semantic_ai_washing/diagnostics/phase0_baseline.py:80-84 | the nested loops list the transitions of the labels |
| Phase0.AppendPairs | src/semantic_ai_washing/diagnostics/phase0_baseline.py:82-84 | the inner loop appends the pairs of one true label |
| Phase0.PairCount | src/semantic_ai_washing/diagnostics/phase0_baseline.py:87-94 | a transition's count is at most the number of detail rows |
| Phase0.AgreeingRowNotCounted | src/semantic_ai_washing/diagnostics/phase0_baseline.py:90-91 | a row whose stripped labels agree adds to no transition |
| Phase0.CountTransitions | src/semantic_ai_washing/diagnostics/phase0_baseline.py:86-94 | there is a counter exactly per transition, holding the rows that mispredicted that way |
| Phase0.EmitTaxonomy | src/semantic_ai_washing/diagnostics/phase0_baseline.py:96-106 | the row loop fails exactly on a label without a short code; otherwise one row per transition with its name, labels and count |
| Phase0.BuildFailureTaxonomy | src/semantic_ai_washing/diagnostics/phase0_baseline.py:76-106 | one row per transition, in order, with the number of rows that mispredicted that way; a label without a short code is the error |
| Phase0.TaxonomyCountsAllMistakes | src/semantic_ai_washing/diagnostics/phase0_baseline.py:76-106 | over distinct labels the transition counts add up to the rows whose two labels differ and are both labels |
| Phase0.CountsAddUp | src/semantic_ai_washing/diagnostics/phase0_baseline.py:86-94 | any distinct list of exactly the transitions has counts adding up to the mistakes |
| Phase0.Max3 | src/semantic_ai_washing/diagnostics/phase0_baseline.py:118 | the result is one of the three shares and at least each of them |
| Phase0.FlagPathologies | src/semantic_ai_washing/diagnostics/phase0_baseline.py:109-123 | the I-share reason appears exactly at or above its threshold, the single-class reason exactly when the largest share reaches its threshold, in that order |
| Phase0.IrrelevantImpliesSingleClass | src/semantic_ai_washing/diagnostics/phase0_baseline.py:119-122 | an I share at or above both thresholds gets both reasons |
| Phase0.PathologyExamples | src/semantic_ai_washing/diagnostics/phase0_baseline.py:109-123 | a 99% Irrelevant file gets both reasons, an even split none |
| Phase0.CountPred | src/semantic_ai_washing/diagnostics/phase0_baseline.py:134-140 | a label's row count is at most the row count |
| Phase0.CountPredDisjoint | src/semantic_ai_washing/diagnostics/phase0_baseline.py:136-140 | the rows of the three labels and of ERROR together are at most all rows |
| Phase0.TallyLabels | src/semantic_ai_washing/diagnostics/phase0_baseline.py:134-140 | the row loop counts all rows, the rows per label, and the ERROR rows |
| Phase0.ParseClassifiedDistribution | src/semantic_ai_washing/diagnostics/phase0_baseline.py:126-166 | counts, shares and pathology reasons of one file as defined, flagged exactly with a reason |
| Phase0.DistributionCounts | src/semantic_ai_washing/diagnostics/phase0_baseline.py:134-142 | valid rows plus ERROR rows are at most all rows |
| Phase0.SharesSumToOne | src/semantic_ai_washing/diagnostics/phase0_baseline.py:142-150 | with valid rows the three shares lie in [0, 1] and add up to one |
| Phase0.Without | src/semantic_ai_washing/diagnostics/phase0_baseline.py:173 | the result holds exactly the entries of the first list not in the second |
| Phase0.SortedSetFacts | src/semantic_ai_washing/diagnostics/phase0_baseline.py:173-174 | sorted(set(xs)) holds the entries of xs, strictly increasing, one per distinct entry |
| Phase0.DedupeSet | src/semantic_ai_washing/diagnostics/phase0_baseline.py:171 | de-duplicating keeps every entry exactly once |
| Phase0.CoverageCorrect | src/semantic_ai_washing/diagnostics/phase0_baseline.py:169-181 | missing and unexpected are exactly the set differences, strictly sorted, and the mismatch count is the number of distinct missing outputs |
| Phase0.ExistingSubsetNoUnexpected | src/semantic_ai_washing/diagnostics/phase0_baseline.py:306-307 | when every existing output was expected, nothing is unexpected |
| Phase0.DropNegativeFlags | src/semantic_ai_washing/diagnostics/phase0_baseline.py:227 | the filtered command is no longer than the original |
| Phase0.DropNegativeFlagsMembers | src/semantic_ai_washing/diagnostics/phase0_baseline.py:227 | the filtered command keeps exactly the arguments that are not negative flags |
| Phase0.FilteredCommand | src/semantic_ai_washing/diagnostics/phase0_baseline.py:210-227 | the evaluator command keeps its module, file, optional positive flags and thresholds, in order |
| Phase0.FixedArgumentsNotNegative | src/semantic_ai_washing/diagnostics/phase0_baseline.py:227 | none of the command's fixed arguments is a negative flag |
| Phase0.ExpectedOutputs | src/semantic_ai_washing/diagnostics/phase0_baseline.py:262-264 | each input's expected output is the input with its suffix replaced, in order |
| Phase0.Existing | src/semantic_ai_washing/diagnostics/phase0_baseline.py:306 | the existing outputs are exactly the expected outputs present on disk |
| Phase0.DistributionRows | src/semantic_ai_washing/diagnostics/phase0_baseline.py:309-330 | one row per input: for an existing output, its rows' full diagnostics (counts, shares, pathology reasons and flag), and for a missing one the empty placeholder |
| Phase0.RunBatchSanity | src/semantic_ai_washing/diagnostics/phase0_baseline.py:248-347 | processed plus skipped is the input count, success exactly when forced and reclassified, coverage of expected against existing with nothing unexpected, one row per input holding its output's full diagnostics or the placeholder |
| BatchClassify.CandidatesMembers | src/semantic_ai_washing/classification/classify_all_ai_sentences.py:57-70 | the candidates are exactly the joined paths of the entries whose name has the sentence suffix |
| BatchClassify.FindAiSentenceFilesCorrect | src/semantic_ai_washing/classification/classify_all_ai_sentences.py:48-76 | the files are a sorted prefix of the sorted candidates, all candidates without a limit, the first limit files with a positive one, all but the last ones with a negative one |
| BatchClassify.OutputIsNotInput | src/semantic_ai_washing/classification/classify_all_ai_sentences.py:93 | a sentence file's output path is never the file itself |
| BatchClassify.SentencesMembers | src/semantic_ai_washing/classification/classify_all_ai_sentences.py:102 | the sentences are exactly the non-empty stripped lines |
| BatchClassify.UnpackScores | src/semantic_ai_washing/classification/classify_all_ai_sentences.py:119-158 | the two loops over a dict, or the slice of a list, give the specified six columns |
| BatchClassify.FlatLoop | src/semantic_ai_washing/classification/classify_all_ai_sentences.py:129-142 | the loop over the items gives the flat pass |
| BatchClassify.NestLoop | src/semantic_ai_washing/classification/classify_all_ai_sentences.py:144-153 | the loop over the nest names gives the nested pass |
| BatchClassify.FlatPassLastMatch | src/semantic_ai_washing/classification/classify_all_ai_sentences.py:129-142 | a column holds the value of the last item whose key names it, and None when no key does |
| BatchClassify.FlatPassIgnoresCase | src/semantic_ai_washing/classification/classify_all_ai_sentences.py:130 | dicts whose keys agree once lower-cased unpack to the same flat columns |
| BatchClassify.NestPassKeeps | src/semantic_ai_washing/classification/classify_all_ai_sentences.py:144-153 | the nested pass only fills columns that are still None |
| BatchClassify.FlatKeyWins | src/semantic_ai_washing/classification/classify_all_ai_sentences.py:144-153 | a column a flat key filled is never overwritten by a nested dict |
| BatchClassify.UnpackNonDict | src/semantic_ai_washing/classification/classify_all_ai_sentences.py:154-158 | a list of at least three items gives its first three as probabilities, any other non-dict six None |
| BatchClassify.CoreScoresUnpack | src/semantic_ai_washing/classification/classify_all_ai_sentences.py:163-171 | the core classifier's score dict unpacks to its three label scores and no similarities |
| BatchClassify.ClassifyRows | src/semantic_ai_washing/classification/classify_all_ai_sentences.py:160-230 | the sentence loop gives one row per sentence, recording a failure in its row and going on |
| BatchClassify.RowsCorrect | src/semantic_ai_washing/classification/classify_all_ai_sentences.py:160-230 | one row per sentence, in order, with the thresholds, marked ERROR with six None exactly when the classifier fails |
| BatchClassify.ClassifyFile | src/semantic_ai_washing/classification/classify_all_ai_sentences.py:79-259 | the method follows the specified outcome: an existing output kept, else a written file or the error |
| BatchClassify.ExistingOutputUntouched | src/semantic_ai_washing/classification/classify_all_ai_sentences.py:95-97 | without force an existing output is kept, whatever the rest of the file system holds |
| BatchClassify.WrittenRows | src/semantic_ai_washing/classification/classify_all_ai_sentences.py:99-259 | a written output goes to the output path and holds one row per non-empty stripped input line |
| BatchClassify.RebuildCountedButNotWritten | src/semantic_ai_washing/classification/classify_all_ai_sentences.py:374-405 | as written, a stale output is counted as processed although it is not rewritten |
| BatchClassify.ProcessedMeansWritten | src/semantic_ai_washing/classification/classify_all_ai_sentences.py:374-405 | with the rebuild forced every processed file was written, and a stale readable output is rewritten |
| BatchClassify.CountsPartition | src/semantic_ai_washing/classification/classify_all_ai_sentences.py:368-420 | every file is counted exactly once: processed, skipped or error |
| BatchClassify.RebuildOnlyMattersWhenStale | src/semantic_ai_washing/classification/classify_all_ai_sentences.py:374-405 | the program as written and the corrected one count a file alike except on the centroids-newer path, where as written it is processed and not rewritten |
| BatchClassify.ClassifyOne | src/semantic_ai_washing/classification/classify_all_ai_sentences.py:372-420 | one iteration gives the file's status under the decision of main: as written (rebuildForced false) a stale output is passed on with force=False, and is counted processed without being rewritten |
| BatchClassify.ClassifyAll | src/semantic_ai_washing/classification/classify_all_ai_sentences.py:368-420 | one status per file, in order, each the decision of main as written (rebuildForced false) or corrected, and the three counters count those statuses and add up to the file count |
| CleanSentences.CollapseWsEnds | src/semantic_ai_washing/tmp/clean_ai_sentences.py:51 | collapsing keeps a string empty or not, and keeps whether it starts and ends with whitespace |
| CleanSentences.CollapseWsShape | src/semantic_ai_washing/tmp/clean_ai_sentences.py:51 | collapsing leaves only single spaces between other characters |
| CleanSentences.CollapseWsNonSpace | src/semantic_ai_washing/tmp/clean_ai_sentences.py:51 | collapsing never loses or adds a visible character |
| CleanSentences.CollapseWsFixed | src/semantic_ai_washing/tmp/clean_ai_sentences.py:51 | a single-spaced string is left as it is |
| CleanSentences.CollapseStripped | src/semantic_ai_washing/tmp/clean_ai_sentences.py:46-51 | collapsing a stripped string gives a stripped, single-spaced one |
| CleanSentences.NormalizedShape | src/semantic_ai_washing/tmp/clean_ai_sentences.py:43-52 | a normalised sentence is stripped and single-spaced, a missing cell gives "", and without quote dropping every visible character is kept |
| CleanSentences.NormalizeIdempotent | src/tmp/clean_ai_sentences.py:43-52 | without quote dropping, normalising a normalised sentence again changes nothing |
| CleanSentences.QuoteDroppingNotIdempotent | src/tmp/clean_ai_sentences.py:40-50 | with quote dropping (the default) a second pass can change the result: `" "a"` gives `"a`, which gives `a` |
| CleanSentences.FirstLetter | src/semantic_ai_washing/tmp/clean_ai_sentences.py:41 | the index found is the first ASCII letter, and none means no letter |
| CleanSentences.FirstAlphaIsCapitalIff | src/semantic_ai_washing/tmp/clean_ai_sentences.py:54-56 | the check holds exactly when some upper-case letter has no letter before it |
| CleanSentences.EndsWithTerminalIff | src/semantic_ai_washing/tmp/clean_ai_sentences.py:58-59 | the check holds exactly when a terminal mark is followed only by closers and then whitespace to the end |
| CleanSentences.EndsWithMarkIff | src/semantic_ai_washing/tmp/clean_ai_sentences.py:39 | reading from the end and the pattern from the front agree when marks, closers and spaces are disjoint |
| CleanSentences.CountLettersBounds | src/semantic_ai_washing/tmp/clean_ai_sentences.py:64 | all letters counts the length, no letter counts zero |
| CleanSentences.MostlyNonLettersExtremes | src/semantic_ai_washing/tmp/clean_ai_sentences.py:61-65 | text of letters only is never mostly non-letters; non-empty text without a letter always is |
| CleanSentences.RatioAtLeast | src/semantic_ai_washing/tmp/clean_ai_sentences.py:65 | the integer test 5a >= 3n is the ratio test a/n >= 0.6 |
| CleanSentences.FirstFailing | src/semantic_ai_washing/tmp/clean_ai_sentences.py:72-83 | the index found is a failing check with none failing before it, and none means all pass |
| CleanSentences.IsIncompleteFirstFailing | src/semantic_ai_washing/tmp/clean_ai_sentences.py:67-83 | a sentence is dropped with the reason of the first failing check, kept with "" when none fails |
| CleanSentences.ReasonEmptyIffKept | src/tmp/clean_ai_sentences.py:67-83 | the reason is empty exactly when the sentence is kept |
| CleanSentences.ColumnFor | src/semantic_ai_washing/tmp/clean_ai_sentences.py:86 | a column found is in the table with that lower-cased name, and none means no column has it |
| CleanSentences.ChooseColumnsSpec | src/semantic_ai_washing/tmp/clean_ai_sentences.py:85-94 | the choice succeeds exactly with a sentence column and a label column, preferring sentence and label |
| CleanSentences.Found | src/semantic_ai_washing/tmp/clean_ai_sentences.py:86-88 | a lookup succeeds exactly when the name is present, and never yields an empty column name |
| CleanSentences.Normalized | src/semantic_ai_washing/tmp/clean_ai_sentences.py:118 | one normalised sentence per input, in order |
| CleanSentences.DropCountsReasons | src/semantic_ai_washing/tmp/clean_ai_sentences.py:134-135 | every counted reason is non-empty and counted at least once, and every dropped row's reason is counted |
| CleanSentences.FilterRows | src/semantic_ai_washing/tmp/clean_ai_sentences.py:121-135 | one keep flag and reason per row from is_incomplete, and the count of each drop reason |
| CleanSentences.FilterWith | src/tmp/clean_ai_sentences.py:121-135 | the same loop for any verdict function |
| CleanSentences.KeptRowsExact | src/semantic_ai_washing/tmp/clean_ai_sentences.py:137-139 | the kept rows are exactly the rows the verdicts keep, no more than the input |
| CleanSentences.KeepRows | src/tmp/clean_ai_sentences.py:137-139 | the loop collects exactly the kept rows, in order |
| CleanSentences.KeyFor | src/semantic_ai_washing/tmp/clean_ai_sentences.py:144 | the key of a row is its sentence, case-folded on request |
| CleanSentences.DedupeRows | src/semantic_ai_washing/tmp/clean_ai_sentences.py:141-150 | the first row per key survives: distinct keys, in input order, and every key kept |
| CleanSentences.WrittenLabel | src/semantic_ai_washing/tmp/clean_ai_sentences.py:161-165 | a written label is non-empty, stripped and not ERROR in any case |
| CleanSentences.WrittenFrom | src/semantic_ai_washing/tmp/clean_ai_sentences.py:157-166 | every written row comes from a de-duplicated row whose label passes the filter |
| CleanSentences.WriteRows | src/tmp/clean_ai_sentences.py:157-166 | the write loop gives the written rows |
| CleanSentences.FirstLabelDecides | src/semantic_ai_washing/tmp/clean_ai_sentences.py:145-166 | when the first row of a key has an unwritable label, no row of that key is written |
| CleanSentences.CleanWith | src/tmp/clean_ai_sentences.py:114-173 | filter, de-duplicate and write for any verdict function, with final kept at most basic kept at most input |
| CleanSentences.CleanTable | src/semantic_ai_washing/tmp/clean_ai_sentences.py:114-173 | normalise, filter, de-duplicate and write, with the report's counts and final kept at most basic kept at most input |
| SentenceFilter.BeforeHash | src/core/sentence_filter.py:34 | the result is the prefix of the line up to its first '#', and holds no '#' |
| SentenceFilter.KeywordOf | src/core/sentence_filter.py:34-40 | a line gives no keyword exactly when it is blank before its comment; a keyword has no upper-case letter, and keeps its length without outer quotes |
| SentenceFilter.KeywordValue | src/core/sentence_filter.py:34-40 | an unquoted line gives its stripped text before the '#', lower-cased; a double-quoted phrase without '#' gives the phrase stripped and lower-cased, without its quotes |
| SentenceFilter.QuotePairGivesEmpty | src/core/sentence_filter.py:38-39 | a line holding only a quote pair gives the empty keyword |
| SentenceFilter.CommentDropped | src/core/sentence_filter.py:34 | everything from the first '#' on is dropped, whatever it holds |
| SentenceFilter.QuotePairBeforeComment | src/core/sentence_filter.py:34-39 | the comment is cut before the quotes are looked at |
| SentenceFilter.LoadKeywords | src/core/sentence_filter.py:20-49 | a missing file gives no keywords; otherwise the keywords of its lines, first occurrences kept |
| SentenceFilter.DedupeKeywords | src/core/sentence_filter.py:43-48 | the seen-set loop keeps first occurrences, in order |
| SentenceFilter.LoadedKeywordsDistinct | src/core/sentence_filter.py:42-49 | the loaded list has no duplicates, keeps file order, and loses no keyword |
| SentenceFilter.ReplaceNbspTab | src/core/sentence_filter.py:77 | the text keeps its length and holds no NBSP and no tab |
| SentenceFilter.CollapseSpacesShape | src/core/sentence_filter.py:78 | collapsing keeps the text empty or not and its first character, leaves no double space and adds no character |
| SentenceFilter.CollapseSpacesNonSpace | src/core/sentence_filter.py:78 | collapsing spaces never loses a visible character |
| SentenceFilter.ReplaceNbspTabNonSpace | src/core/sentence_filter.py:77 | replacing NBSP and tab never loses a visible character |
| SentenceFilter.BreakFacts | src/core/sentence_filter.py:68 | a break follows . ? or !, is a whitespace run, and precedes an upper-case letter or '(' |
| SentenceFilter.SplitAtBreaksShape | src/core/sentence_filter.py:96 | every piece but the last ends a sentence, every piece but the first starts one |
| SentenceFilter.SplitAtBreaksFirst | src/core/sentence_filter.py:96 | the first piece starts the text, and is empty only for the empty text |
| SentenceFilter.SplitAtBreaksNonSpace | src/core/sentence_filter.py:96 | splitting drops only whitespace: the visible characters of the pieces are those of the text, in order |
| SentenceFilter.StrippedNonEmptyShape | src/core/sentence_filter.py:97 | every kept piece is non-empty and stripped, and no visible character is lost |
| SentenceFilter.SplitAtBreaksComplete | src/core/sentence_filter.py:68-96 | no piece of the split holds a match of `_SENT_END`: the text is cut at every whitespace run after . ? or ! that precedes an upper-case letter or '(' |
| SentenceFilter.SegmentSentencesSound | src/core/sentence_filter.py:71-97 | segmentation yields non-empty stripped sentences and keeps the visible characters of the text in order |
| SentenceFilter.SegmentSentencesComplete | src/core/sentence_filter.py:71-97 | no sentence that segmentation yields holds a whitespace run after . ? or ! that precedes an upper-case letter or '(' |
| SentenceFilter.NormalizedTextClean | src/core/sentence_filter.py:77-78 | the text that is split has no NBSP, no tab and no double space |
| SentenceFilter.BlankKeywordsMatchNothing | src/core/sentence_filter.py:107-125 | with only blank keywords nothing matches |
| SentenceFilter.SingleWordNeedsBoundaries | src/core/sentence_filter.py:115-117 | a one-word keyword does not match inside a longer alphanumeric word |
| SentenceFilter.FilteredNothing | src/core/sentence_filter.py:123-125 | a search that never succeeds keeps nothing |
| SentenceFilter.FilteredSelects | src/core/sentence_filter.py:140-147 | the output is exactly the kept sentences, stripped, in input order |
| SentenceFilter.FilterAiSentences | src/core/sentence_filter.py:131-147 | the loop keeps the sentences that pass the negative filter and the keyword search |
| Extract.YearNamesLookLikeYears | src/semantic_ai_washing/data/extract_ai_sentences.py:82-83 | every four-digit year, written out, is a year-like folder name with that value |
| Extract.ParseFormFromFilename | src/semantic_ai_washing/data/extract_ai_sentences.py:86-98 | a form found is non-empty and holds no '_' |
| Extract.SecondFieldOf | src/semantic_ai_washing/data/extract_ai_sentences.py:92-94 | the second '_'-field of `a_b_rest` is b |
| Extract.ParseFormOfFilingName | src/semantic_ai_washing/data/extract_ai_sentences.py:86-98 | `date_form_rest` gives back its form exactly when the form holds a letter or '-' |
| Extract.NoFieldNoForm | src/semantic_ai_washing/data/extract_ai_sentences.py:93-98 | a name without '_' has no form |
| Extract.FormOfFilingName | src/scripts/filter_ai_sentences.py:66-78 | the form of a usual EDGAR file name is its second field |
| Extract.ParseCikFromFilename | src/semantic_ai_washing/data/extract_ai_sentences.py:101-106 | a CIK found is all digits |
| Extract.ParseCikAgrees | src/semantic_ai_washing/data/extract_ai_sentences.py:77 | the extraction and the aggregation read the same CIK, "unknown" standing for none |
| Extract.CikOfFilingName | src/semantic_ai_washing/data/extract_ai_sentences.py:103-105 | a usual EDGAR file name gives back its CIK and its date's first four digits |
| Extract.LeadingYear | src/semantic_ai_washing/data/extract_ai_sentences.py:114 | a leading year found is four digits |
| Extract.FilingContext | src/semantic_ai_washing/data/extract_ai_sentences.py:109-118 | the year is year-like, the form has no '_', the CIK is digits, each unless "unknown" |
| Extract.ContextYear | src/semantic_ai_washing/data/extract_ai_sentences.py:111-115 | the year is the folder when year-like, else the name's leading digits, else "unknown" |
| Extract.FilingContextOfLayout | src/semantic_ai_washing/data/extract_ai_sentences.py:109-118 | a usual file in `root/folder` gives the folder's year (or the date's), its form and its CIK |
| Extract.FilingContextOf | src/semantic_ai_washing/data/extract_ai_sentences.py:111-118 | the context of `root/folder/name` follows from what the name parses to |
| Extract.NestedPath | src/semantic_ai_washing/data/extract_ai_sentences.py:111-112 | in `root/folder/name` the last part is name and its folder's last part is folder |
| Extract.SplitPath | src/semantic_ai_washing/data/extract_ai_sentences.py:154 | the last part of `dir/name` is name and its folder is dir |
| Extract.EndsWithAnyContains | src/scripts/filter_ai_sentences.py:103 | a name ending with a derived suffix contains it, so the substring test covers the suffix test |
| Extract.FolderFilingsMembers | src/semantic_ai_washing/data/extract_ai_sentences.py:144-159 | one folder yields exactly the joined paths of the names that pass |
| Extract.FilingsInMembers | src/semantic_ai_washing/data/extract_ai_sentences.py:137-159 | the walk yields exactly the passing files of the folders that pass |
| Extract.IterFilingsMembers | src/semantic_ai_washing/data/extract_ai_sentences.py:121-159 | a path is yielded exactly when it is a passing file of a passing year folder under the base |
| Extract.EmptyYearSetScansNothing | src/semantic_ai_washing/data/extract_ai_sentences.py:138 | a present but empty year set scans nothing |
| Extract.EmptyFormSetFiltersNothing | src/semantic_ai_washing/data/extract_ai_sentences.py:155 | an empty form set filters nothing |
| Extract.OutputNotRescanned | src/semantic_ai_washing/data/extract_ai_sentences.py:174-177 | the output's name is derived, so a later walk never yields it |
| Extract.DistinctOutputs | src/semantic_ai_washing/data/extract_ai_sentences.py:177 | two different text filings never share an output file |
| Extract.ProcessFile | src/semantic_ai_washing/data/extract_ai_sentences.py:162-265 | the output path is the sentences path, only Ok counts sentences, and only Ok or Empty writes |
| Extract.DerivedNotRead | src/semantic_ai_washing/data/extract_ai_sentences.py:173-175 | a derived input is empty without reading or writing, whatever the disk holds |
| Extract.ExistingNotRead | src/semantic_ai_washing/data/extract_ai_sentences.py:177-179 | without force an existing output is skipped, whatever else the disk holds |
| Extract.RerunSkips | src/semantic_ai_washing/data/extract_ai_sentences.py:177-179 | a file written once is skipped by a later run without force |
| Extract.ScriptProcessFile | src/scripts/filter_ai_sentences.py:113-143 | the older step fails exactly when it must read or write and cannot; otherwise it never reports an error |
| Extract.VersionsAgree | src/scripts/filter_ai_sentences.py:113-143 | where neither raises, the older step is the newer one with the same extraction |
| Extract.MergeCounters | src/semantic_ai_washing/data/extract_ai_sentences.py:220-222 | the fragment total is the two passes' sum when counts shrink, at most that sum, and zero exactly when nothing merged |
| Extract.ParseFilter | src/semantic_ai_washing/data/extract_ai_sentences.py:407-417 | ALL gives no filter; otherwise a set of non-empty, stripped, comma-free tokens |
| Extract.FilterRoundTrip | src/semantic_ai_washing/data/extract_ai_sentences.py:411 | clean tokens written comma-separated parse back to exactly their set |
| Extract.TokensClean | src/semantic_ai_washing/data/extract_ai_sentences.py:411 | stripped tokens of comma-free pieces are stripped and comma-free |
| Extract.SplitJoinComma | src/semantic_ai_washing/data/extract_ai_sentences.py:411 | splitting a comma-joined list of comma-free parts gives the parts back |
| Extract.CleanTokenSet | src/semantic_ai_washing/data/extract_ai_sentences.py:411 | stripping clean tokens changes none and drops none |
| Extract.RunOver | src/semantic_ai_washing/data/extract_ai_sentences.py:437-488 | the run sees at most every path, and stops early only at the limit |
| Extract.StopsForever | src/semantic_ai_washing/data/extract_ai_sentences.py:440-441 | once stopped, the run stays as it was |
| Extract.RunOverStep | src/semantic_ai_washing/data/extract_ai_sentences.py:438-488 | one more path, before the limit, is one more step |
| Extract.RunExtraction | src/semantic_ai_washing/data/extract_ai_sentences.py:437-488 | the loop, breaking at the limit, gives the specified run |
| Extract.Fold | src/semantic_ai_washing/data/extract_ai_sentences.py:438-488 | the unlimited run sees every path and counts as processed exactly the files written |
| Extract.RunIsFold | src/semantic_ai_washing/data/extract_ai_sentences.py:437-441 | the limited run is the unlimited one over the paths it scanned |
| Extract.FoldCounts | src/semantic_ai_washing/data/extract_ai_sentences.py:451-481 | each counter counts the paths with its status |
| Extract.FoldPerYear | src/semantic_ai_washing/data/extract_ai_sentences.py:444-447 | the per-year counts are the tally of the paths' folders |
| Extract.RunTotals | src/semantic_ai_washing/data/extract_ai_sentences.py:419-488 | the totals count the statuses of exactly the scanned paths, each once, and processed is the number written |
| Extract.FoldSeen | src/semantic_ai_washing/data/extract_ai_sentences.py:448-481 | every path seen lands in exactly one counter |
| Extract.RunPerYear | src/semantic_ai_washing/data/extract_ai_sentences.py:444-448 | the per-year counts tally the scanned paths' folders and add up to the paths seen |
| Extract.ScriptRunNoErrors | src/scripts/filter_ai_sentences.py:217-237 | with no error status the error count stays 0 |
| Extract.ScriptStep | src/scripts/filter_ai_sentences.py:113-143 | the older `process_file` either raises or returns a status that is never "error" |
| Extract.ScannedIsReached | src/scripts/filter_ai_sentences.py:218-221 | the loop reaches a filing without breaking at the limit exactly when the run scans it |
| Extract.SeenGrows | src/scripts/filter_ai_sentences.py:218-236 | the run over a prefix of the filings scans no more of them than the whole run |
| Extract.ScriptRun | src/scripts/filter_ai_sentences.py:217-236 | the older loop ends the script (no summary) exactly when a filing the run scans raises in `process_file`; otherwise it gives the run over all filings up to the limit, with no errors counted |
| Extract.RunLimit | src/semantic_ai_washing/data/extract_ai_sentences.py:434-441 | a positive limit bounds the files written, a negative one scans nothing, 0 scans everything |
| SecIndex.YearGlobYears | src/semantic_ai_washing/data/index_sec_filings.py:37 | the year glob admits exactly the four-digit names 2011 to 2014 and 2021 to 2024 |
| SecIndex.TxtFilesMembers | src/semantic_ai_washing/data/index_sec_filings.py:43 | a quarter folder yields exactly its `.txt` regular files |
| SecIndex.QuarterFilingsMembers | src/semantic_ai_washing/data/index_sec_filings.py:40-43 | a year folder yields exactly the files of its `QTR[1-4]` folders |
| SecIndex.IterFilingPathsMembers | src/semantic_ai_washing/data/index_sec_filings.py:36-43 | the walk yields exactly the files of the quarter folders of the matching year folders under the root |
| SecIndex.SortedNames | src/scripts/index_sec_filings.py:35-39 | sorting a listing keeps exactly its names |
| SecIndex.FormLength | src/semantic_ai_washing/data/index_sec_filings.py:31 | the form group is 0, 4 or 6 characters long, within the text |
| SecIndex.ParseFilename | src/semantic_ai_washing/data/index_sec_filings.py:46-53 | a match starts with eight digits and '_' |
| SecIndex.ParsedShape | src/semantic_ai_washing/data/index_sec_filings.py:50-53 | a match gives a digit CIK, one of the four forms, and the four-digit year the aggregation reads from the same name |
| SecIndex.TxtTailOf | src/semantic_ai_washing/data/index_sec_filings.py:31 | a newline-free name ending in `.txt` matches the tail |
| SecIndex.CikGroupOf | src/semantic_ai_washing/data/index_sec_filings.py:31 | the CIK group reads back the digits |
| SecIndex.AfterDateOf | src/semantic_ai_washing/data/index_sec_filings.py:31-32 | the part after the date reads back the CIK and the upper-cased form |
| SecIndex.ParseWithDate | src/semantic_ai_washing/data/index_sec_filings.py:47-51 | a date, '_' and a matching part read as that part's groups with the date's year |
| SecIndex.ParseEdgarName | src/semantic_ai_washing/data/index_sec_filings.py:30-53 | a name built from a date, a form, a CIK and a rest reads back as that CIK, year and upper-cased form |
| SecIndex.FormGroupIsForm | src/semantic_ai_washing/data/index_sec_filings.py:31 | when the pattern matches, the whole second field is one of the four forms |
| SecIndex.FormAccepted | src/semantic_ai_washing/data/index_sec_filings.py:30-33 | a name in the documented shape matches exactly when its form is one of the four, in any case |
| SecIndex.IndexAgreesWithExtract | src/scripts/index_sec_filings.py:44-50 | the index and the extraction read the same form and CIK from a filing name |
| SecIndex.IndexFilings | src/semantic_ai_washing/data/index_sec_filings.py:64-75 | every path counts towards the total, and each matching one adds its row and counts as matched |
| SecIndex.IndexRowsCount | src/semantic_ai_washing/data/index_sec_filings.py:68-75 | one row per matching path, never more rows than paths |
| SecIndex.IndexRowsFaithful | src/scripts/index_sec_filings.py:64-72 | each row is a walked path whose name parses to the row's fields |
| SecIndex.CountByYear | src/semantic_ai_washing/data/index_sec_filings.py:82-84 | the per-year counts are the tally of the rows' years |
| SecIndex.ByYearCounts | src/scripts/index_sec_filings.py:79-81 | the per-year counts add up to the number of rows, each being its year's number of rows |
| CompanyLookup.FindSuffixMatches | src/patents/build_company_lookup.py:32-42 | the search finds the leftmost suffix match, and nothing exactly when there is none |
| CompanyLookup.SubSuffixNoMatch | src/patents/build_company_lookup.py:42 | with no match the name is unchanged |
| CompanyLookup.SubSuffixLeftmost | src/patents/build_company_lookup.py:42 | the leftmost match is the part removed |
| CompanyLookup.SubSuffixStripsWord | src/patents/build_company_lookup.py:32-42 | a name ending in whitespace and the suffix word loses exactly those |
| CompanyLookup.NoSpaceNoMatch | src/patents/build_company_lookup.py:32-39 | a name without whitespace matches no suffix pattern |
| CompanyLookup.OtherEndingNoMatch | src/patents/build_company_lookup.py:32-39 | a name whose last character cannot end a match is unchanged |
| CompanyLookup.NoSpaceStripsNothing | src/patents/build_company_lookup.py:41-42 | a name without whitespace goes through every pattern unchanged |
| CompanyLookup.DropSymbols | src/patents/build_company_lookup.py:45 | the characters kept are word and space characters of the name, and the name is unchanged exactly when it has no other kind |
| CompanyLookup.CleanCompanyName | src/patents/build_company_lookup.py:14-50 | a missing name gives ""; a cleaned name is single-spaced lower-case word characters |
| CompanyLookup.CleanShape | src/patents/build_company_lookup.py:14-50 | a cleaned name is single-spaced and holds only spaces and lower-case word characters |
| CompanyLookup.SquashVisible | src/patents/build_company_lookup.py:48-50 | collapsing whitespace keeps every visible character, in order |
| CompanyLookup.SquashIdempotent | src/patents/build_company_lookup.py:48 | collapsing whitespace twice is collapsing it once |
| CompanyLookup.SplitJoin | src/patents/build_company_lookup.py:48 | splitting undoes joining with spaces of non-empty words without whitespace |
| CompanyLookup.JoinSpaceSingle | src/patents/build_company_lookup.py:48 | joining non-empty words without whitespace gives a single-spaced text |
| CompanyLookup.SplitWsWithin | src/patents/build_company_lookup.py:48 | every piece of the split is made of characters of the text |
| CompanyLookup.CaseInsensitive | src/patents/build_company_lookup.py:28 | cleaning depends only on the lower-cased name |
| CompanyLookup.CleanWordInc | src/patents/build_company_lookup.py:61 | a one-word name with Inc. comes out as that word, lower-cased |
| CompanyLookup.SuffixesInSequence | src/patents/build_company_lookup.py:41-42 | suffixes come off in list order, so "Co Inc" after a word leaves the word |
| CompanyLookup.SuffixesTriedOnce | src/patents/build_company_lookup.py:41-42 | each pattern is tried once, so "Inc Co" after a word leaves the word and "inc" |
| Compustat.NormalizeCik | src/data/pull_compustat_controls.py:45-49 | a CIK is empty or all digits and at least ten long, and empty exactly for a missing value or one whose text has no digit |
| Compustat.CikPadsDigits | src/data/pull_compustat_controls.py:45-49 | the padding adds only zeros in front of the digits, and only up to ten places |
| Compustat.CikIdempotent | src/data/pull_compustat_controls.py:347 | normalising a normalised CIK changes nothing |
| Compustat.CikOfInt | src/data/pull_compustat_controls.py:45-49 | an integer CIK is zero-filled to ten places and keeps its value |
| Compustat.FloatCikDigits | src/data/pull_compustat_controls.py:48 | a whole-number float renders with an extra trailing zero digit |
| Compustat.FloatCikTenfold | src/data/pull_compustat_controls.py:86 | as written, a float CIK normalises to ten times its value |
| Compustat.FloatCikMisses | src/data/pull_compustat_controls.py:86 | as written, a float CIK never meets the same CIK given as text |
| Compustat.NormalizeCikFixed | src/data/pull_compustat_controls.py:45-49 | the corrected normalisation agrees with the original on every non-float cell |
| Compustat.FloatCikMatches | src/data/pull_compustat_controls.py:86 | corrected, a float CIK meets the same CIK given as text and keeps its value |
| Compustat.NormalizeTicker | src/data/pull_compustat_controls.py:51-54 | a ticker is empty or has no whitespace at either end |
| Compustat.TickerIdempotent | src/data/pull_compustat_controls.py:51-54 | a normalised ticker has no lower-case letter and is its own normal form |
| Compustat.CompTicker | src/data/pull_compustat_controls.py:144 | a missing Compustat ticker is blank |
| Compustat.TickersAgree | src/data/pull_compustat_controls.py:144 | both sides normalise a present ticker alike; a missing one is "NAN" in the firm list and blank in Compustat |
| Compustat.Universe | src/data/pull_compustat_controls.py:147-148 | the identifier set holds every non-blank identifier and never the blank one |
| Compustat.HitIffKeyed | src/data/pull_compustat_controls.py:151-165 | a row is a hit exactly when it is keyed by CIK or ticker, and never without both |
| Compustat.CandidatesKeyed | src/data/pull_compustat_controls.py:170-177 | every crosswalk row was kept and matched by CIK or ticker |
| Compustat.NoHitsNoKeys | src/data/pull_compustat_controls.py:157-165 | with no hit every row is keyed by name |
| Compustat.NameFallbackLost | src/data/pull_compustat_controls.py:156-177 | as written, when no row is a hit the name matches are dropped and the crosswalk is empty |
| Compustat.NameHitsWithin | src/data/pull_compustat_controls.py:159-161 | every name match is a Compustat row |
| Compustat.NameFallbackKept | src/data/pull_compustat_controls.py:156-177 | corrected, with no hit the crosswalk is exactly the name matches |
| Compustat.CleanGvkeys | src/data/pull_compustat_controls.py:212 | there are never more cleaned gvkeys than gvkeys |
| Compustat.CleanGvkeysSound | src/data/pull_compustat_controls.py:211-214 | every cleaned gvkey is non-blank and stripped, every usable one is kept, and none are left exactly when none is usable |
| Compustat.PullFundaParams | src/data/pull_compustat_controls.py:208-229 | a query is made exactly when a gvkey is usable; its parameters are the cleaned gvkeys, then the start and end year |
| Compustat.PlaceholderSlots | src/data/pull_compustat_controls.py:217 | the placeholder list has one slot per gvkey |
| Compustat.FundaSlotsMatch | src/data/pull_compustat_controls.py:217-229 | the query has as many slots as parameters |
| Ordering.SortStringsCorrect | src/semantic_ai_washing/classification/classify_all_ai_sentences.py:73 | sorting gives a sorted permutation of the input, and it is the only one |
| Ordering.StrLtIsStrictTotalOrder | src/semantic_ai_washing/data/extract_ai_sentences.py:137 | string order is irreflexive, transitive and total |
| Ordering.DedupeByKeepsFirst | src/semantic_ai_washing/tmp/clean_ai_sentences.py:141-150 | every entry whose key does not occur before it survives de-duplication |
| Ordering.DedupeByKeys | src/tmp/clean_ai_sentences.py:141-150 | de-duplication keeps exactly the set of keys of the input |
| Counting.TallyCounts | src/semantic_ai_washing/data/index_sec_filings.py:82-84 | a value is counted exactly when it occurs, and its count is its number of occurrences |
| Counting.TallyTotal | src/semantic_ai_washing/data/extract_ai_sentences.py:447 | the counts add up to the number of values |

Where the written description of the classifier and its code differ, the model follows the code:
- the fine margin is the rounded gap between the two largest of all three scores, not |a − s| (`Classify.FineMarginIsTopGap`);
- the eps_irr test asks for an Irrelevant score strictly above 0.5;
- the guard answers (forced Speculative, rule gate, ops-risk cue) carry a margin of 0.0, not a rounded gap.

## Left out

- Embeddings and centroid similarity (SentenceTransformer, torch, device choice) are the parameter `centroid`, which returns the score dict of one sentence. Nothing is assumed about its values.
- Every named regular expression of the classifier and the evaluator is an uninterpreted predicate in `Patterns` / `EvalPatterns`. The patterns of the filename parsers, the sentence cleaner, the keyword filter and the company-name cleaner are written out over characters.
- `\w`, `\d`, `isalpha`, `isdigit`, `isupper`, `lower`, `upper` and `casefold` are ASCII only. `isspace` and `\s` use Python's whitespace set. There is no Unicode case folding or normalisation.
- I/O is not modelled: files, CSV and Parquet reading and writing, directory walks and globs, logging, progress bars, subprocess calls, report writers, git and sha256 metadata. A file system is a record of functions (present, read, mtime, writable); a walk is the list of entries it meets.
- The start-up checks of the batch classifier (missing centroids, the single-file mode) and of the other drivers' `main` functions (argument parsing, exits) are left out; each model starts after them.
- The log1p features of the aggregation, compute_controls, winsorising, the QC report, connect_wrds and the SQL round trips of the Compustat script are left out (floating point, network).
- load_company_list's column inference is left out, and so are the sort at `pull_compustat_controls.py:166`, the de-duplications at 176-177 and the name merges at 180-188.
- Compustat.PullFundaParams: the SQL text is pieces of text and `%s` slots, and its layout whitespace is collapsed.
- Compustat.NormalizeCik: a float cell holds a whole number below 10^16 only (`Float(whole)`, where `str` gives digits and ".0"); fractional, negative and exponent-notation floats are not modelled.
- CompanyLookup.CleanCompanyName: a non-string name is not rendered through `str()`; a missing one (`pd.isna`) is `None`.
- merge_page_fragments, merge_sentence_fragments and validate_sentence_completion are part of a module that is not part of this model. The extraction step takes them as one function `extract` that may fail.
- The spaCy branch of segment_sentences is left out; only the regular-expression fallback is modelled.
- CLASS_LABELS is taken to be Actionable, Speculative, Irrelevant, in that order, and the centroid dict is taken to list the classes in that order (it decides the tie-break of `max`).
- CleanSentences.NormalizeIdempotent: idempotence is proved only without quote dropping; with quote dropping, the default, it does not hold (CleanSentences.QuoteDroppingNotIdempotent), and nothing is promised about a second pass.
- Phase0.ParseClassifiedDistribution: the label shares are exact real quotients, not binary floats, so Phase0.SharesSumToOne's sum of exactly one holds of the reals only.
- Classify.Round3: `round(x, 3)` is rounding half to even on the exact real value, not on binary floats.
- NaN in score or label cells is the `Missing` / `NaN` constructor of a cell type; float arithmetic on NaN is not modelled.
- Extract.ScriptRun: a raise in the older `process_file` is modelled as the run ending in a failure with no totals; the outputs written before it are not tracked, and the exception text is not modelled.
- Aggregate.LegacyAggregate: the older script's unguarded open is modelled as the run failing at the first unreadable dated file; the exception text is not.
- The filing index's globs are case-sensitive, as on POSIX file systems.
- The CSV writers (column order, quoting) of every driver are left out; their rows are returned as values.
- The summary and report printing of every driver is left out.

## Findings

| source | as written | input that shows it | evidently intended | confidence | as-written member | corrected member |
|---|---|---|---|---|---|---|
| src/semantic_ai_washing/tests/evaluate_classifier_on_held_out.py:231-235 | both branches of the tau/eps_irr test choose Speculative when s >= a, else Actionable, so the thresholds change nothing | a = 0.50, s = 0.49, irr = 0.49, tau = 0.05, eps_irr = 0.02 gives Actionable | inside the tau band with Irrelevant competitive, prefer Speculative | not executed | Evaluator.EvalFinalLabelOverclaims | Evaluator.EvalFinalLabelIntended |
| src/data/pull_compustat_controls.py:45-49 | a CIK read into a float column renders as "320193.0", and its digits gain a trailing zero | 320193.0 gives "0003201930" instead of "0000320193" | a whole-number float gives the CIK it holds | not executed | Compustat.FloatCikMisses | Compustat.FloatCikMatches |
| src/data/pull_compustat_controls.py:156-177 | the name-match fallback keeps rows whose match_key is "name", but the crosswalk only takes "cik" and "ticker" rows, so it is empty | a firm list without CIK or ticker hits whose names do match | the name matches reach the crosswalk | not executed | Compustat.NameFallbackLost | Compustat.NameFallbackKept |
| src/semantic_ai_washing/classification/classify_all_ai_sentences.py:374-405 | when the centroids are newer than an output, main calls classify_file with force=False, which returns early because the output exists, and still counts the file as processed | an existing output older than the centroids, without --force, refresh on (its default) | the stale output is rebuilt | not executed | BatchClassify.RebuildCountedButNotWritten | BatchClassify.ProcessedMeansWritten |
