/** The batch driver `classify_all_ai_sentences.py`: which sentence files it
    picks, how the classifier's score object becomes six CSV columns, the rows
    `classify_file` writes for one file, and how `main` accounts for every
    file it was given. */
module BatchClassify {
  import opened Common
  import opened Text
  import Ordering
  import Classify

  // ---------------------------------------------------------------------
  // find_ai_sentence_files
  // ---------------------------------------------------------------------

  const InputSuffix := "_ai_sentences.txt"
  const OutputSuffix := "_classified.csv"

  /** A directory entry met while listing: its folder and its file name. */
  type Entry = (string, string)

  /** `os.path.join(folder, name)` for a name without slashes. */
  function Join(folder: string, name: string): string
  {
    if folder == [] || folder[|folder| - 1] == '/' then folder + name else folder + "/" + name
  }

  predicate Picked(e: Entry)
  {
    EndsWith(e.1, InputSuffix)
  }

  /** The joined paths of the picked entries, in listing order. */
  function Candidates(entries: seq<Entry>): seq<string>
  {
    if entries == [] then []
    else
      var e := entries[|entries| - 1];
      Candidates(entries[..|entries| - 1]) + if Picked(e) then [Join(e.0, e.1)] else []
  }

  /** `xs[:k]`, a negative `k` counting from the end. */
  function SliceTo<T>(xs: seq<T>, k: int): seq<T>
  {
    if k >= 0 then xs[..if k <= |xs| then k else |xs|]
    else xs[..if |xs| + k >= 0 then |xs| + k else 0]
  }

  /** `find_ai_sentence_files`, given the entries the listing met (the
      requested year folders, or the whole tree). */
  function FindAiSentenceFiles(entries: seq<Entry>, limit: int): seq<string>
  {
    var c := Ordering.SortStrings(Candidates(entries));
    if limit != 0 && |c| > limit then SliceTo(c, limit) else c
  }

  lemma {:induction false} CandidatesMembers(entries: seq<Entry>)
    ensures forall p :: p in Candidates(entries) <==>
      exists i :: 0 <= i < |entries| && Picked(entries[i]) && p == Join(entries[i].0, entries[i].1)
  {
    if entries != [] {
      var init := entries[..|entries| - 1];
      CandidatesMembers(init);
      forall i | 0 <= i < |init| ensures init[i] == entries[i] { }
    }
  }

  /** The files come out sorted, each one a picked entry, as a prefix of all
      sorted candidates: the first `limit` of them for a positive limit, all
      of them for 0, and all but the last `-limit` for a negative one. */
  lemma FindAiSentenceFilesCorrect(entries: seq<Entry>, limit: int)
    ensures var r := FindAiSentenceFiles(entries, limit);
      var all := Ordering.SortStrings(Candidates(entries));
      Ordering.Sorted(r, Ordering.StrLt) && |r| <= |all| && r == all[..|r|]
    ensures var r := FindAiSentenceFiles(entries, limit);
      forall p :: p in r ==> exists i :: 0 <= i < |entries| && Picked(entries[i]) && p == Join(entries[i].0, entries[i].1)
    ensures var r := FindAiSentenceFiles(entries, limit);
      limit == 0 ==> multiset(r) == multiset(Candidates(entries))
    ensures var r := FindAiSentenceFiles(entries, limit);
      limit > 0 ==> |r| == if limit < |Candidates(entries)| then limit else |Candidates(entries)|
    ensures var r := FindAiSentenceFiles(entries, limit);
      limit < 0 ==> |r| == if |Candidates(entries)| + limit > 0 then |Candidates(entries)| + limit else 0
  {
    var c := Candidates(entries);
    var all := Ordering.SortStrings(c);
    var r := FindAiSentenceFiles(entries, limit);
    Ordering.SortStringsCorrect(c, c);
    CandidatesMembers(entries);
    assert r == all[..|r|];
    forall p | p in r ensures p in c {
      assert p in multiset(all);
    }
  }

  // ---------------------------------------------------------------------
  // classify_file: the output path and the sentences
  // ---------------------------------------------------------------------

  /** `input_path.replace("_ai_sentences.txt", "_classified.csv")`. */
  function OutputPath(input: string): string
  {
    ReplaceAll(input, InputSuffix, OutputSuffix)
  }

  /** A name with the input suffix in it is never its own output: the
      classified file cannot overwrite the sentences it was made from. */
  lemma OutputIsNotInput(input: string)
    requires Contains(input, InputSuffix)
    ensures OutputPath(input) != input
  {
    ReplaceShortens(input, InputSuffix, OutputSuffix);
  }

  /** `[line.strip() for line in f if line.strip()]`. */
  function Sentences(lines: seq<string>): seq<string>
  {
    if lines == [] then []
    else
      var s := Strip(lines[|lines| - 1]);
      Sentences(lines[..|lines| - 1]) + if s != [] then [s] else []
  }

  /** The sentences are exactly the non-empty stripped lines. */
  lemma {:induction false} SentencesMembers(lines: seq<string>)
    ensures forall s :: s in Sentences(lines) <==> s != [] && exists i :: 0 <= i < |lines| && s == Strip(lines[i])
  {
    if lines != [] {
      var init := lines[..|lines| - 1];
      SentencesMembers(init);
      forall i | 0 <= i < |init| ensures init[i] == lines[i] { }
    }
  }

  // ---------------------------------------------------------------------
  // _unpack_scores
  // ---------------------------------------------------------------------

  /** A Python value as `_unpack_scores` sees it; a dict is its items in
      insertion order, each key as `str(key)`. */
  datatype Value =
    | Dict(entries: seq<(string, Value)>)
    | Items(elems: seq<Value>)
    | Num(x: real)
    | Str(s: string)
    | Null
    | Other

  /** The six output columns, in the order of the returned tuple. */
  datatype Slot = PA | PS | PI | CA | CS | CI

  datatype Unpacked = Unpacked(pA: Value, pS: Value, pI: Value, cA: Value, cS: Value, cI: Value)

  const AllNone := Unpacked(Null, Null, Null, Null, Null, Null)

  function Take(u: Unpacked, sl: Slot): Value
  {
    match sl
    case PA => u.pA
    case PS => u.pS
    case PI => u.pI
    case CA => u.cA
    case CS => u.cS
    case CI => u.cI
  }

  function Put(u: Unpacked, sl: Slot, v: Value): (r: Unpacked)
    ensures Take(r, sl) == v
    ensures forall o :: o != sl ==> Take(r, o) == Take(u, o)
  {
    match sl
    case PA => u.(pA := v)
    case PS => u.(pS := v)
    case PI => u.(pI := v)
    case CA => u.(cA := v)
    case CS => u.(cS := v)
    case CI => u.(cI := v)
  }

  /** The column a lower-cased flat key names, tested in the order of the
      `elif` chain. */
  function SlotOf(kk: string): Option<Slot>
  {
    if kk in ["a", "actionable", "p_actionable"] then Some(PA)
    else if kk in ["s", "speculative", "p_speculative"] then Some(PS)
    else if kk in ["i", "irrelevant", "p_irrelevant"] then Some(PI)
    else if kk in ["cos_a", "cos_to_a", "sim_a"] then Some(CA)
    else if kk in ["cos_s", "cos_to_s", "sim_s"] then Some(CS)
    else if kk in ["cos_i", "cos_to_i", "sim_i"] then Some(CI)
    else None
  }

  /** The column a flat key names: its lower-cased form through `SlotOf`. */
  function KeySlot(key: string): Option<Slot>
  {
    SlotOf(Lower(key))
  }

  /** Whether item `i` of a dict names column `sl`, under the key reading
      `slot`. */
  predicate Names(slot: string -> Option<Slot>, entries: seq<(string, Value)>, i: int, sl: Slot)
  {
    0 <= i < |entries| && slot(entries[i].0) == Some(sl)
  }

  /** Item `i` names column `sl` and no later item does. */
  predicate LastNaming(slot: string -> Option<Slot>, entries: seq<(string, Value)>, i: int, sl: Slot)
  {
    Names(slot, entries, i, sl)
    && forall j :: i < j < |entries| ==> !Names(slot, entries, j, sl)
  }

  /** A pass over the items that puts each value in the column its key
      names, later items overwriting earlier ones. */
  function FlatPassBy(slot: string -> Option<Slot>, entries: seq<(string, Value)>): Unpacked
  {
    if entries == [] then AllNone
    else
      var u := FlatPassBy(slot, entries[..|entries| - 1]);
      match slot(entries[|entries| - 1].0)
      case None => u
      case Some(sl) => Put(u, sl, entries[|entries| - 1].1)
  }

  /** The first pass over the flat keys. */
  function FlatPass(entries: seq<(string, Value)>): Unpacked
  {
    FlatPassBy(KeySlot, entries)
  }

  /** The nested dicts looked at by the second pass, in order. */
  const Nests := ["probs", "scores", "sims", "cos", "cosines"]

  /** `d.get(key)`, as the index of the item holding `key`. */
  function Lookup(entries: seq<(string, Value)>, key: string): (r: Option<nat>)
    ensures r.Some? ==> r.value < |entries| && entries[r.value].0 == key
    ensures r.None? ==> forall i :: 0 <= i < |entries| ==> entries[i].0 != key
  {
    if entries == [] then None
    else if entries[|entries| - 1].0 == key then Some(|entries| - 1)
    else Lookup(entries[..|entries| - 1], key)
  }

  function Keep(x: Value, y: Value): Value
  {
    if x != Null then x else y
  }

  /** `x if x is not None else y`, column by column. */
  function Fill(u: Unpacked, w: Unpacked): Unpacked
  {
    Unpacked(Keep(u.pA, w.pA), Keep(u.pS, w.pS), Keep(u.pI, w.pI),
             Keep(u.cA, w.cA), Keep(u.cS, w.cS), Keep(u.cI, w.cI))
  }

  /** `_unpack_scores(scores_obj)`. */
  function Unpack(v: Value): Unpacked
    decreases v, 1
  {
    match v
    case Dict(entries) => NestPass(entries, FlatPass(entries), |Nests|)
    case Items(elems) => if |elems| >= 3 then Unpacked(elems[0], elems[1], elems[2], Null, Null, Null) else AllNone
    case _ => AllNone
  }

  /** The second pass over the first `n` nest names. */
  function NestPass(entries: seq<(string, Value)>, u: Unpacked, n: nat): Unpacked
    requires n <= |Nests|
    decreases Dict(entries), 0, n
  {
    if n == 0 then u
    else
      var w := NestPass(entries, u, n - 1);
      match Lookup(entries, Nests[n - 1])
      case None => w
      case Some(i) => if entries[i].1.Dict? then Fill(w, Unpack(entries[i].1)) else w
  }

  /** `_unpack_scores`: the two loops over a dict, the slice of a list. */
  method UnpackScores(v: Value) returns (u: Unpacked)
    ensures u == Unpack(v)
    decreases v, 1
  {
    match v {
      case Dict(entries) =>
        u := FlatLoop(entries);
        u := NestLoop(entries, u);
      case Items(elems) =>
        u := if |elems| >= 3 then Unpacked(elems[0], elems[1], elems[2], Null, Null, Null) else AllNone;
      case _ =>
        u := AllNone;
    }
  }

  /** The first loop of `_unpack_scores`, over the dict's items. */
  method FlatLoop(entries: seq<(string, Value)>) returns (u: Unpacked)
    ensures u == FlatPass(entries)
  {
    u := AllNone;
    for k := 0 to |entries|
      invariant u == FlatPassBy(KeySlot, entries[..k])
    {
      assert entries[..k + 1][..k] == entries[..k];
      match KeySlot(entries[k].0) {
        case None =>
        case Some(sl) => u := Put(u, sl, entries[k].1);
      }
    }
    assert entries[..|entries|] == entries;
  }

  /** The second loop of `_unpack_scores`, over the nest names. */
  method NestLoop(entries: seq<(string, Value)>, u0: Unpacked) returns (u: Unpacked)
    ensures u == NestPass(entries, u0, |Nests|)
    decreases Dict(entries), 0
  {
    u := u0;
    for n := 0 to |Nests|
      invariant u == NestPass(entries, u0, n)
    {
      var found := Lookup(entries, Nests[n]);
      if found.Some? && entries[found.value].1.Dict? {
        var w := UnpackScores(entries[found.value].1);
        u := Fill(u, w);
      }
    }
  }

  /** After the flat pass a column holds the value of the last item whose
      key names it, and None when no key does. */
  lemma {:induction false} FlatPassLastMatch(slot: string -> Option<Slot>, entries: seq<(string, Value)>, sl: Slot)
    ensures (forall i :: 0 <= i < |entries| ==> !Names(slot, entries, i, sl)) ==> Take(FlatPassBy(slot, entries), sl) == Null
    ensures forall i :: LastNaming(slot, entries, i, sl) ==> Take(FlatPassBy(slot, entries), sl) == entries[i].1
  {
    if entries != [] {
      var init := entries[..|entries| - 1];
      var last := |entries| - 1;
      FlatPassLastMatch(slot, init, sl);
      assert forall i :: 0 <= i < |init| ==> init[i] == entries[i];
      assert forall i :: 0 <= i < |init| ==> (Names(slot, init, i, sl) <==> Names(slot, entries, i, sl));
      if Names(slot, entries, last, sl) {
        assert Take(FlatPassBy(slot, entries), sl) == entries[last].1;
        forall i | LastNaming(slot, entries, i, sl) ensures i == last {
          assert i < last ==> !Names(slot, entries, last, sl);
        }
      } else {
        assert Take(FlatPassBy(slot, entries), sl) == Take(FlatPassBy(slot, init), sl);
        forall i | LastNaming(slot, entries, i, sl) ensures LastNaming(slot, init, i, sl) {
        }
      }
    }
  }

  /** Keys are matched case-insensitively: dicts whose keys agree once
      lower-cased unpack to the same flat columns. */
  lemma {:induction false} FlatPassIgnoresCase(e: seq<(string, Value)>, f: seq<(string, Value)>)
    requires |e| == |f|
    requires forall i :: 0 <= i < |e| ==> Lower(e[i].0) == Lower(f[i].0) && e[i].1 == f[i].1
    ensures FlatPass(e) == FlatPass(f)
  {
    if e != [] {
      FlatPassIgnoresCase(e[..|e| - 1], f[..|f| - 1]);
      assert KeySlot(e[|e| - 1].0) == KeySlot(f[|f| - 1].0);
    }
  }

  /** The second pass only fills columns that are still None. */
  lemma {:induction false} NestPassKeeps(entries: seq<(string, Value)>, u: Unpacked, n: nat, sl: Slot)
    requires n <= |Nests| && Take(u, sl) != Null
    ensures Take(NestPass(entries, u, n), sl) == Take(u, sl)
  {
    if n > 0 {
      NestPassKeeps(entries, u, n - 1, sl);
    }
  }

  /** A column a flat key filled is never overwritten by a nested dict. */
  lemma FlatKeyWins(entries: seq<(string, Value)>, sl: Slot)
    requires Take(FlatPass(entries), sl) != Null
    ensures Take(Unpack(Dict(entries)), sl) == Take(FlatPass(entries), sl)
  {
    NestPassKeeps(entries, FlatPass(entries), |Nests|, sl);
  }

  /** A list or tuple of at least three items gives its first three as the
      probabilities; any other value that is not a dict gives six None. */
  lemma UnpackNonDict(v: Value)
    requires !v.Dict?
    ensures v.Items? && |v.elems| >= 3 ==> Unpack(v) == Unpacked(v.elems[0], v.elems[1], v.elems[2], Null, Null, Null)
    ensures !(v.Items? && |v.elems| >= 3) ==> Unpack(v) == AllNone
    ensures Unpack(v).cA == Null && Unpack(v).cS == Null && Unpack(v).cI == Null
  {
  }

  // ---------------------------------------------------------------------
  // The score dict of the core classifier
  // ---------------------------------------------------------------------

  function Column(x: Option<real>): Value
  {
    if x.Some? then Num(x.value) else Null
  }

  /** The score dict `classify_two_stage` returns: the label scores it has,
      then `fine_margin`. */
  function ScoreDict(pr: Classify.Prediction): Value
  {
    var m := pr.scores;
    Dict((if m.a.Some? then [("Actionable", Num(m.a.value))] else [])
         + (if m.s.Some? then [("Speculative", Num(m.s.value))] else [])
         + (if m.i.Some? then [("Irrelevant", Num(m.i.value))] else [])
         + [("fine_margin", Num(pr.fineMargin))])
  }

  /** The classifier as `classify_file` calls it: its label as text and its
      score dict, or the error it raised. */
  function CoreClassifier(p: Classify.Patterns, centroid: string -> Classify.ScoreMap, cfg: Classify.Config)
    : string -> Result<(string, Value)>
  {
    t => match Classify.ClassifyTwoStage(p, centroid, t, cfg)
         case Failure(e) => Failure(e)
         case Success(pr) => Success((Classify.LabelName(pr.predicted), ScoreDict(pr)))
  }

  /** The label names the core classifier uses as keys name the three
      probability columns. */
  lemma LabelKeys()
    ensures KeySlot("Actionable") == Some(PA)
    ensures KeySlot("Speculative") == Some(PS)
    ensures KeySlot("Irrelevant") == Some(PI)
  {
    assert Lower("Actionable") == "actionable";
    assert Lower("Speculative") == "speculative";
    assert Lower("Irrelevant") == "irrelevant";
  }

  /** `fine_margin` names no column. */
  lemma FineMarginKey()
    ensures KeySlot("fine_margin") == None
  {
    assert Lower("fine_margin") == "fine_margin";
  }

  /** A dict none of whose keys is a nest name is left as the flat pass
      made it. */
  lemma {:induction false} NestPassNoNests(entries: seq<(string, Value)>, u: Unpacked, n: nat)
    requires n <= |Nests|
    requires forall i :: 0 <= i < |entries| ==> |entries[i].0| > 7
    ensures NestPass(entries, u, n) == u
  {
    if n > 0 {
      NestPassNoNests(entries, u, n - 1);
      var found := Lookup(entries, Nests[n - 1]);
      assert |Nests[n - 1]| <= 7;
      assert found.None?;
    }
  }

  /** One more item: its value goes to the column its key names, if any. */
  lemma FlatPassSnoc(slot: string -> Option<Slot>, e: seq<(string, Value)>, key: string, v: Value)
    ensures FlatPassBy(slot, e + [(key, v)])
         == if slot(key).Some? then Put(FlatPassBy(slot, e), slot(key).value, v) else FlatPassBy(slot, e)
  {
    assert (e + [(key, v)])[..|e|] == e;
  }

  /** The flat pass over the core classifier's score dict, under any key
      reading that sends the label names to their columns and
      `fine_margin` nowhere. */
  lemma ScoreDictFlat(slot: string -> Option<Slot>, pr: Classify.Prediction)
    requires slot("Actionable") == Some(PA) && slot("Speculative") == Some(PS) && slot("Irrelevant") == Some(PI)
    requires slot("fine_margin") == None
    ensures FlatPassBy(slot, ScoreDict(pr).entries)
         == Unpacked(Column(pr.scores.a), Column(pr.scores.s), Column(pr.scores.i), Null, Null, Null)
  {
    var m := pr.scores;
    var e0 := if m.a.Some? then [("Actionable", Num(m.a.value))] else [];
    var e1 := e0 + (if m.s.Some? then [("Speculative", Num(m.s.value))] else []);
    var e2 := e1 + (if m.i.Some? then [("Irrelevant", Num(m.i.value))] else []);
    assert ScoreDict(pr).entries == e2 + [("fine_margin", Num(pr.fineMargin))];
    assert FlatPassBy(slot, e0) == Unpacked(Column(m.a), Null, Null, Null, Null, Null) by {
      if m.a.Some? {
        FlatPassSnoc(slot, [], "Actionable", Num(m.a.value));
      }
    }
    assert FlatPassBy(slot, e1) == Unpacked(Column(m.a), Column(m.s), Null, Null, Null, Null) by {
      if m.s.Some? {
        FlatPassSnoc(slot, e0, "Speculative", Num(m.s.value));
      } else {
        assert e1 == e0;
      }
    }
    assert FlatPassBy(slot, e2) == Unpacked(Column(m.a), Column(m.s), Column(m.i), Null, Null, Null) by {
      if m.i.Some? {
        FlatPassSnoc(slot, e1, "Irrelevant", Num(m.i.value));
      } else {
        assert e2 == e1;
      }
    }
    FlatPassSnoc(slot, e2, "fine_margin", Num(pr.fineMargin));
  }

  /** The core classifier's score dict unpacks to its three label scores
      as the probabilities and no similarities. */
  lemma CoreScoresUnpack(pr: Classify.Prediction)
    ensures Unpack(ScoreDict(pr)) == Unpacked(Column(pr.scores.a), Column(pr.scores.s), Column(pr.scores.i), Null, Null, Null)
  {
    var e := ScoreDict(pr).entries;
    LabelKeys();
    FineMarginKey();
    ScoreDictFlat(KeySlot, pr);
    assert forall i :: 0 <= i < |e| ==> |e[i].0| > 7;
    NestPassNoNests(e, FlatPass(e), |Nests|);
  }

  // ---------------------------------------------------------------------
  // classify_file: the rows
  // ---------------------------------------------------------------------

  datatype Row = Row(sentence: string, labelPred: string, scores: Unpacked,
                     tau: real, epsIrr: real, minTokens: int)

  /** The row for one sentence: the label and the unpacked scores, or
      "ERROR" and six None when the classifier raised. */
  function RowOf(s: string, outcome: Result<(string, Value)>, cfg: Classify.Config): Row
  {
    match outcome
    case Failure(_) => Row(s, "ERROR", AllNone, cfg.tau, cfg.epsIrr, cfg.minTokens)
    case Success(v) => Row(s, v.0, Unpack(v.1), cfg.tau, cfg.epsIrr, cfg.minTokens)
  }

  function Rows(sentences: seq<string>, classify: string -> Result<(string, Value)>, cfg: Classify.Config): seq<Row>
  {
    seq(|sentences|, j requires 0 <= j < |sentences| => RowOf(sentences[j], classify(sentences[j]), cfg))
  }

  /** The sentence loop of `classify_file`: a failure is recorded in its row
      and the loop goes on. */
  method ClassifyRows(sentences: seq<string>, classify: string -> Result<(string, Value)>, cfg: Classify.Config)
    returns (rows: seq<Row>)
    ensures rows == Rows(sentences, classify, cfg)
  {
    rows := [];
    for j := 0 to |sentences|
      invariant rows == Rows(sentences[..j], classify, cfg)
    {
      var s := sentences[j];
      var row: Row;
      match classify(s) {
        case Failure(_) =>
          row := Row(s, "ERROR", AllNone, cfg.tau, cfg.epsIrr, cfg.minTokens);
        case Success(v) =>
          var u := UnpackScores(v.1);
          row := Row(s, v.0, u, cfg.tau, cfg.epsIrr, cfg.minTokens);
      }
      rows := rows + [row];
    }
    assert sentences[..|sentences|] == sentences;
  }

  /** One row per sentence, in order, each carrying the run's tau, eps_irr
      and min_tokens; with the core classifier a row says "ERROR" exactly
      when classifying its sentence raised, and then all six scores are None. */
  lemma RowsCorrect(p: Classify.Patterns, centroid: string -> Classify.ScoreMap, sentences: seq<string>, cfg: Classify.Config)
    ensures var rows := Rows(sentences, CoreClassifier(p, centroid, cfg), cfg);
      |rows| == |sentences|
      && forall j :: 0 <= j < |rows| ==>
        rows[j].sentence == sentences[j]
        && rows[j].tau == cfg.tau && rows[j].epsIrr == cfg.epsIrr && rows[j].minTokens == cfg.minTokens
        && (rows[j].labelPred == "ERROR" <==> Classify.ClassifyTwoStage(p, centroid, sentences[j], cfg).Failure?)
        && (rows[j].labelPred == "ERROR" ==> rows[j].scores == AllNone)
  {
    forall l: Classify.Label ensures Classify.LabelName(l) != "ERROR" {
    }
  }

  // ---------------------------------------------------------------------
  // classify_file
  // ---------------------------------------------------------------------

  /** What the file system answers: whether a path exists, its modification
      time (None when that fails), the lines of a readable file, and whether
      a path can be written. */
  datatype Env = Env(present: string -> bool, mtime: string -> Option<real>,
                     read: string -> Option<seq<string>>, writable: string -> bool)

  /** An existing output left alone, or the output written with its rows. */
  datatype FileOutcome = Kept(path: string) | Written(path: string, rows: seq<Row>)

  function ClassifyFileSpec(input: string, force: bool, env: Env,
                            classify: string -> Result<(string, Value)>, cfg: Classify.Config): Result<FileOutcome>
  {
    var out := OutputPath(input);
    if !force && env.present(out) then Success(Kept(out))
    else match env.read(input)
      case None => Failure("OSError reading " + input)
      case Some(lines) =>
        if env.writable(out) then Success(Written(out, Rows(Sentences(lines), classify, cfg)))
        else Failure("OSError writing " + out)
  }

  /** `classify_file(input_path, force, ...)`. */
  method ClassifyFile(input: string, force: bool, env: Env,
                      classify: string -> Result<(string, Value)>, cfg: Classify.Config)
    returns (r: Result<FileOutcome>)
    ensures r == ClassifyFileSpec(input, force, env, classify, cfg)
  {
    var out := OutputPath(input);
    if !force && env.present(out) {
      return Success(Kept(out));
    }
    var lines := env.read(input);
    if lines.None? {
      return Failure("OSError reading " + input);
    }
    var rows := ClassifyRows(Sentences(lines.value), classify, cfg);
    if !env.writable(out) {
      return Failure("OSError writing " + out);
    }
    return Success(Written(out, rows));
  }

  /** Without `force`, an existing output is returned before the input is
      read or anything is written: what the input holds and whether the
      output is writable make no difference. */
  lemma ExistingOutputUntouched(input: string, env: Env, env': Env,
                                classify: string -> Result<(string, Value)>, cfg: Classify.Config)
    requires env.present(OutputPath(input)) && env'.present == env.present
    ensures ClassifyFileSpec(input, false, env, classify, cfg) == Success(Kept(OutputPath(input)))
    ensures ClassifyFileSpec(input, false, env', classify, cfg) == ClassifyFileSpec(input, false, env, classify, cfg)
  {
  }

  /** A written output holds one row per non-empty stripped input line. */
  lemma WrittenRows(input: string, force: bool, env: Env,
                    classify: string -> Result<(string, Value)>, cfg: Classify.Config)
    requires ClassifyFileSpec(input, force, env, classify, cfg).Success?
    requires ClassifyFileSpec(input, force, env, classify, cfg).value.Written?
    ensures var o := ClassifyFileSpec(input, force, env, classify, cfg).value;
      env.read(input).Some? && o.path == OutputPath(input)
      && |o.rows| == |Sentences(env.read(input).value)|
      && forall j :: 0 <= j < |o.rows| ==> o.rows[j].sentence == Sentences(env.read(input).value)[j]
  {
  }

  // ---------------------------------------------------------------------
  // main: skip, rebuild or classify, and the counters
  // ---------------------------------------------------------------------

  /** Skip a file, or call `classify_file` with the given `force`. */
  datatype Decision = Skip | Run(forceArg: bool)

  /** The decision of `main` for one file. As written (`rebuildForced`
      false), the "centroids newer" path passes `main`'s own `force`, which is
      false there, so `classify_file` returns at once because the output
      exists; with `rebuildForced` it passes true, as the "Rebuild" message
      intends. */
  function Decide(outExists: bool, force: bool, refresh: bool,
                  outMtime: Option<real>, centroidsMtime: real, rebuildForced: bool): Decision
  {
    if outExists && !force then
      if refresh then
        var m := if outMtime.Some? then outMtime.value else -1.0;
        if m < centroidsMtime then Run(force || rebuildForced) else Skip
      else Skip
    else Run(force)
  }

  /** The "centroids newer" path of `main`: an existing output, no `force`,
      refresh on, and an output older than the centroids (a missing
      modification time counts as -1). */
  predicate Stale(input: string, force: bool, refresh: bool, centroidsMtime: real, env: Env)
  {
    var out := OutputPath(input);
    env.present(out) && !force && refresh
    && (if env.mtime(out).Some? then env.mtime(out).value else -1.0) < centroidsMtime
  }

  /** How `main` counts a file; `written` says whether its output was
      actually (re)written. */
  datatype Status = Skipped | Processed(written: bool) | Errored

  function StatusOf(d: Decision, input: string, env: Env,
                    classify: string -> Result<(string, Value)>, cfg: Classify.Config): Status
  {
    match d
    case Skip => Skipped
    case Run(f) =>
      match ClassifyFileSpec(input, f, env, classify, cfg)
      case Failure(_) => Errored
      case Success(o) => Processed(o.Written?)
  }

  function FileStatus(input: string, force: bool, refresh: bool, centroidsMtime: real, env: Env,
                      classify: string -> Result<(string, Value)>, cfg: Classify.Config,
                      rebuildForced: bool): Status
  {
    var out := OutputPath(input);
    StatusOf(Decide(env.present(out), force, refresh, env.mtime(out), centroidsMtime, rebuildForced),
             input, env, classify, cfg)
  }

  /** As written, a file whose output predates the centroids is counted as
      processed although `classify_file` returns before reading its input or
      rewriting its output: whether the input can be read makes no
      difference. */
  lemma RebuildCountedButNotWritten(input: string, m: real, centroidsMtime: real, env: Env,
                                    classify: string -> Result<(string, Value)>, cfg: Classify.Config)
    requires env.present(OutputPath(input)) && env.mtime(OutputPath(input)) == Some(m) && m < centroidsMtime
    ensures FileStatus(input, false, true, centroidsMtime, env, classify, cfg, false) == Processed(false)
  {
  }

  /** With the rebuild forced, every file counted as processed had its output
      written, and a stale output is rewritten whenever it can be. */
  lemma ProcessedMeansWritten(input: string, force: bool, refresh: bool, centroidsMtime: real, env: Env,
                              classify: string -> Result<(string, Value)>, cfg: Classify.Config)
    ensures var st := FileStatus(input, force, refresh, centroidsMtime, env, classify, cfg, true);
      st.Processed? ==> st.written
    ensures Stale(input, force, refresh, centroidsMtime, env)
      && env.read(input).Some? && env.writable(OutputPath(input))
      ==> FileStatus(input, force, refresh, centroidsMtime, env, classify, cfg, true) == Processed(true)
  {
  }

  /** The program as written and the corrected one differ only on the
      "centroids newer" path; everywhere else they count a file alike. */
  lemma RebuildOnlyMattersWhenStale(input: string, force: bool, refresh: bool, centroidsMtime: real, env: Env,
                                    classify: string -> Result<(string, Value)>, cfg: Classify.Config)
    ensures !Stale(input, force, refresh, centroidsMtime, env) ==>
      FileStatus(input, force, refresh, centroidsMtime, env, classify, cfg, false)
      == FileStatus(input, force, refresh, centroidsMtime, env, classify, cfg, true)
    ensures Stale(input, force, refresh, centroidsMtime, env) ==>
      FileStatus(input, force, refresh, centroidsMtime, env, classify, cfg, false) == Processed(false)
  {
  }

  function CountIf(sts: seq<Status>, p: Status -> bool): (n: nat)
    ensures n <= |sts|
  {
    if sts == [] then 0 else CountIf(sts[..|sts| - 1], p) + if p(sts[|sts| - 1]) then 1 else 0
  }

  predicate IsProcessed(s: Status) { s.Processed? }
  predicate IsSkipped(s: Status) { s.Skipped? }
  predicate IsErrored(s: Status) { s.Errored? }

  /** Every file is counted exactly once: processed, skipped or error. */
  lemma {:induction false} CountsPartition(sts: seq<Status>)
    ensures CountIf(sts, IsProcessed) + CountIf(sts, IsSkipped) + CountIf(sts, IsErrored) == |sts|
  {
    if sts != [] {
      CountsPartition(sts[..|sts| - 1]);
    }
  }

  /** One iteration of the file loop: decide, and classify unless skipped.
      `main` as written is `rebuildForced` false. */
  method ClassifyOne(inp: string, force: bool, refresh: bool, centroidsMtime: real, env: Env,
                     classify: string -> Result<(string, Value)>, cfg: Classify.Config, rebuildForced: bool)
    returns (st: Status)
    ensures st == FileStatus(inp, force, refresh, centroidsMtime, env, classify, cfg, rebuildForced)
  {
    var outp := OutputPath(inp);
    var d := Decide(env.present(outp), force, refresh, env.mtime(outp), centroidsMtime, rebuildForced);
    if d.Skip? {
      st := Skipped;
    } else {
      var r := ClassifyFile(inp, d.forceArg, env, classify, cfg);
      st := if r.Success? then Processed(r.value.Written?) else Errored;
    }
  }

  /** The file loop of `main`, from the list of files on (the start-up checks
      have passed, so the centroids' modification time is known). `main` as
      written is `rebuildForced` false. */
  method ClassifyAll(files: seq<string>, force: bool, refresh: bool, centroidsMtime: real, env: Env,
                     classify: string -> Result<(string, Value)>, cfg: Classify.Config, rebuildForced: bool)
    returns (processed: nat, skipped: nat, errors: nat, statuses: seq<Status>)
    ensures |statuses| == |files|
    ensures forall j :: 0 <= j < |files| ==>
      statuses[j] == FileStatus(files[j], force, refresh, centroidsMtime, env, classify, cfg, rebuildForced)
    ensures processed == CountIf(statuses, IsProcessed) && skipped == CountIf(statuses, IsSkipped)
    ensures errors == CountIf(statuses, IsErrored)
    ensures processed + skipped + errors == |files|
  {
    processed, skipped, errors, statuses := 0, 0, 0, [];
    for j := 0 to |files|
      invariant |statuses| == j
      invariant forall q :: 0 <= q < j ==>
        statuses[q] == FileStatus(files[q], force, refresh, centroidsMtime, env, classify, cfg, rebuildForced)
      invariant processed == CountIf(statuses, IsProcessed) && skipped == CountIf(statuses, IsSkipped)
      invariant errors == CountIf(statuses, IsErrored)
    {
      var st := ClassifyOne(files[j], force, refresh, centroidsMtime, env, classify, cfg, rebuildForced);
      if st.Processed? {
        processed := processed + 1;
      } else if st.Skipped? {
        skipped := skipped + 1;
      } else {
        errors := errors + 1;
      }
      assert (statuses + [st])[..j] == statuses;
      statuses := statuses + [st];
    }
    CountsPartition(statuses);
  }
}
