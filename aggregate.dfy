/** Per-(cik, year) label counting over classified files, as done by
    `aggregation/aggregate_classification_counts.py` (the current copy under
    `semantic_ai_washing/` and the older one). The directory walk and the file
    contents are parameters: the walked paths, and for each path the lines of a
    text file or the header and rows of a CSV file. The `log1p` features are
    not modelled. */
module Aggregate {
  import opened Common
  import opened Text
  import Ordering
  import Classify

  // ---------------------------------------------------------------------
  // extract_year_and_cik
  // ---------------------------------------------------------------------

  const EdgarMarker := "edgar_data_"

  /** Length of the run of digits that `s` starts with. */
  function DigitRun(s: string): (n: nat)
    ensures n <= |s|
  {
    if s != [] && IsDigit(s[0]) then 1 + DigitRun(s[1..]) else 0
  }

  lemma {:induction false} DigitRunDigits(s: string)
    ensures forall k :: 0 <= k < DigitRun(s) ==> IsDigit(s[k])
    ensures DigitRun(s) < |s| ==> !IsDigit(s[DigitRun(s)])
  {
    if s != [] && IsDigit(s[0]) {
      DigitRunDigits(s[1..]);
    }
  }

  /** A run of digits followed by a non-digit is measured exactly. */
  lemma {:induction false} DigitRunOf(digits: string, tail: string)
    requires forall k :: 0 <= k < |digits| ==> IsDigit(digits[k])
    requires tail != [] && !IsDigit(tail[0])
    ensures DigitRun(digits + tail) == |digits|
  {
    if digits != [] {
      assert (digits + tail)[1..] == digits[1..] + tail;
      DigitRunOf(digits[1..], tail);
    } else {
      assert digits + tail == tail;
    }
  }

  /** `edgar_data_(\d+)_` matches at `p`. The digit run is maximal, so the
      regex cannot backtrack to a shorter one that is followed by '_'. */
  predicate CikAt(f: string, p: nat)
  {
    OccursAt(f, p, EdgarMarker)
    && var n := DigitRun(f[p + |EdgarMarker|..]);
    n >= 1 && p + |EdgarMarker| + n < |f| && f[p + |EdgarMarker| + n] == '_'
  }

  /** `re.search`: the leftmost match at or after `from`. */
  function FirstCikAt(f: string, from: nat): (r: Option<nat>)
    ensures r.Some? ==> from <= r.value && CikAt(f, r.value)
    ensures r.None? ==> forall p: nat :: from <= p ==> !CikAt(f, p)
    decreases |f| + 1 - from
  {
    if from > |f| then None
    else if CikAt(f, from) then Some(from)
    else FirstCikAt(f, from + 1)
  }

  lemma {:induction false} FirstCikAtIs(f: string, from: nat, p: nat)
    requires from <= p && CikAt(f, p)
    requires forall q: nat :: from <= q < p ==> !CikAt(f, q)
    ensures FirstCikAt(f, from) == Some(p)
    decreases p - from
  {
    if from < p {
      FirstCikAtIs(f, from + 1, p);
    }
  }

  predicate StartsWithYear(f: string)
  {
    |f| >= 4 && IsDigitString(f[..4])
  }

  /** `int(name[:4])` when the name starts with four digits, else -1. */
  function YearOf(f: string): (y: int)
    ensures y == -1 <==> !StartsWithYear(f)
    ensures y != -1 ==> y >= 0
  {
    if StartsWithYear(f) then DecimalValue(f[..4]) else -1
  }

  /** The digits of the first `edgar_data_<digits>_`, else "unknown". */
  function CikOf(f: string): (c: string)
    ensures c != "unknown" ==> IsDigitString(c)
  {
    CikSearch(f, 0)
  }

  /** The search of `CikOf`, one start position at a time. */
  function CikSearch(f: string, from: nat): (c: string)
    ensures c != "unknown" ==> IsDigitString(c)
    decreases |f| + 1 - from
  {
    if from > |f| then "unknown"
    else if CikAt(f, from) then CikFrom(f, from)
    else CikSearch(f, from + 1)
  }

  /** The search returns the digits of the leftmost match. */
  lemma {:induction false} CikSearchFirst(f: string, from: nat)
    ensures CikSearch(f, from) == match FirstCikAt(f, from)
      case None => "unknown"
      case Some(p) => CikFrom(f, p)
    decreases |f| + 1 - from
  {
    if from <= |f| && !CikAt(f, from) {
      CikSearchFirst(f, from + 1);
    }
  }

  /** The digit run that follows the marker matched at `p`. */
  function CikFrom(f: string, p: nat): (c: string)
    requires CikAt(f, p)
    ensures IsDigitString(c) && c != "unknown"
  {
    var start := p + |EdgarMarker|;
    var n := DigitRun(f[start..]);
    DigitRunDigits(f[start..]);
    assert f[start..start + n] == f[start..][..n];
    assert "unknown"[0] == 'u';
    f[start..start + n]
  }

  /** `extract_year_and_cik(filename)`: the int of four leading digits or -1,
      and the digits of the first `edgar_data_<digits>_` or "unknown". */
  function ExtractYearAndCik(filename: string): (r: (int, string))
    ensures r.0 == -1 <==> !StartsWithYear(filename)
    ensures r.0 != -1 ==> r.0 >= 0
    ensures r.1 != "unknown" ==> IsDigitString(r.1)
  {
    (YearOf(filename), CikOf(filename))
  }

  /** The CIK is "unknown" exactly when `edgar_data_<digits>_` occurs nowhere. */
  lemma CikUnknown(filename: string)
    ensures ExtractYearAndCik(filename).1 == "unknown" <==> forall p: nat :: !CikAt(filename, p)
  {
    CikSearchFirst(filename, 0);
    match FirstCikAt(filename, 0)
    case None =>
    case Some(p) =>
  }

  /** The marker written after `prefix` matches, with exactly `cik` as its digits. */
  lemma CikAtWritten(prefix: string, cik: string, rest: string)
    requires IsDigitString(cik)
    ensures var f := prefix + EdgarMarker + cik + "_" + rest;
      CikAt(f, |prefix|) && DigitRun(f[|prefix| + |EdgarMarker|..]) == |cik|
  {
    var f := prefix + EdgarMarker + cik + "_" + rest;
    var p := |prefix|;
    assert f[p..p + |EdgarMarker|] == EdgarMarker;
    assert f[p + |EdgarMarker|..] == cik + ("_" + rest);
    DigitRunOf(cik, "_" + rest);
  }

  /** No match can start inside a prefix without 'e'. */
  lemma NoCikInPrefix(prefix: string, tail: string)
    requires 'e' !in prefix
    ensures forall q: nat :: q < |prefix| ==> !CikAt(prefix + tail, q)
  {
    var f := prefix + tail;
    forall q: nat | q < |prefix| ensures !CikAt(f, q) {
      assert f[q] == prefix[q];
    }
  }

  /** After a prefix without 'e', the first marker is the one written. */
  lemma CikAfterPrefix(prefix: string, cik: string, rest: string)
    requires 'e' !in prefix
    requires IsDigitString(cik)
    ensures CikOf(prefix + EdgarMarker + cik + "_" + rest) == cik
  {
    var f := prefix + EdgarMarker + cik + "_" + rest;
    var p := |prefix|;
    CikAtWritten(prefix, cik, rest);
    assert f == prefix + (EdgarMarker + cik + "_" + rest);
    NoCikInPrefix(prefix, EdgarMarker + cik + "_" + rest);
    FirstCikAtIs(f, 0, p);
    CikSearchFirst(f, 0);
    assert f[p + |EdgarMarker|..p + |EdgarMarker| + |cik|] == cik;
  }

  /** A filing name of the usual shape gives back its year and its CIK. */
  lemma ExtractFromFilingName(date: string, form: string, cik: string, rest: string)
    requires |date| >= 4 && IsDigitString(date)
    requires 'e' !in form
    requires IsDigitString(cik)
    ensures ExtractYearAndCik(date + "_" + form + "_" + EdgarMarker + cik + "_" + rest)
         == (DecimalValue(date[..4]), cik)
  {
    var prefix := date + "_" + form + "_";
    var f := prefix + EdgarMarker + cik + "_" + rest;
    assert f == date + "_" + form + "_" + EdgarMarker + cik + "_" + rest;
    assert f[..4] == date[..4];
    assert 'e' !in prefix by {
      forall q | 0 <= q < |prefix| ensures prefix[q] != 'e' {
        if q < |date| { assert prefix[q] == date[q]; }
        else if q > |date| && q < |prefix| - 1 { assert prefix[q] == form[q - |date| - 1]; }
      }
    }
    CikAfterPrefix(prefix, cik, rest);
  }

  // ---------------------------------------------------------------------
  // parse_labels_from_txt_file
  // ---------------------------------------------------------------------

  const LabelSep := " | Label: "

  /** The label one legacy line carries: the text after the first
      " | Label: " up to the next " |", stripped, if that is not empty. */
  function TxtLineLabel(line: string): (r: Option<string>)
    ensures r.Some? ==> Contains(line, LabelSep) && r.value != [] && Strip(r.value) == r.value
  {
    match IndexOf(line, LabelSep)
    case None => None
    case Some(k) =>
      var after := line[k + |LabelSep|..];
      var end := IndexOf(after, " |");
      var field := if end.Some? then after[..end.value] else after;
      var lab := Strip(field);
      StripStripped(lab);
      if lab == [] then None else Some(lab)
  }

  /** A separator whose second character is '|' is first found right after
      a prefix free of '|'. */
  lemma {:induction false} PipeSeparatorFirst(a: string, m: string, b: string)
    requires |m| >= 2 && m[0] != '|' && m[1] == '|'
    requires '|' !in a
    ensures IndexOf(a + m + b, m) == Some(|a|)
  {
    var s := a + m + b;
    assert s[|a|..|a| + |m|] == m;
    forall j: nat | j < |a| ensures !OccursAt(s, j, m) {
      if j + 1 < |a| { assert s[j + 1] == a[j + 1]; } else { assert s[j + 1] == m[0]; }
      assert s[j..j + |m|][1] == s[j + 1];
    }
    IndexOfIs(s, m, |a|);
  }

  /** A line written as `sentence | Label: X | more` gives back `X`. */
  lemma TxtLineLabelOfWritten(sentence: string, lab: string, more: string)
    requires '|' !in sentence && '|' !in lab
    requires lab != [] && !IsSpace(lab[0]) && !IsSpace(lab[|lab| - 1])
    ensures TxtLineLabel(sentence + LabelSep + lab + " |" + more) == Some(lab)
  {
    var line := sentence + LabelSep + lab + " |" + more;
    var k := |sentence|;
    assert line == sentence + LabelSep + (lab + " |" + more);
    PipeSeparatorFirst(sentence, LabelSep, lab + " |" + more);
    var after := line[k + |LabelSep|..];
    assert after == lab + " |" + more;
    PipeSeparatorFirst(lab, " |", more);
    assert after[..|lab|] == lab;
    StripStripped(lab);
  }

  /** The labels of a legacy file, in line order. */
  function TxtLabels(lines: seq<string>): seq<string>
  {
    if lines == [] then []
    else
      TxtLabels(lines[..|lines| - 1])
      + (match TxtLineLabel(lines[|lines| - 1]) case Some(l) => [l] case None => [])
  }

  /** A file that cannot be opened gives no labels. */
  function TxtFileLabels(content: Option<seq<string>>): seq<string>
  {
    match content
    case None => []
    case Some(lines) => TxtLabels(lines)
  }

  /** `parse_labels_from_txt_file(path)`; `content` is None when opening fails. */
  method ParseLabelsFromTxtFile(content: Option<seq<string>>) returns (labels: seq<string>)
    ensures labels == TxtFileLabels(content)
  {
    labels := [];
    if content.None? {
      return;
    }
    var lines := content.value;
    for i := 0 to |lines|
      invariant labels == TxtLabels(lines[..i])
    {
      assert lines[..i + 1][..i] == lines[..i];
      match TxtLineLabel(lines[i]) {
        case Some(l) => labels := labels + [l];
        case None =>
      }
    }
    assert lines[..|lines|] == lines;
  }

  // ---------------------------------------------------------------------
  // parse_labels_from_csv_file
  // ---------------------------------------------------------------------

  /** A CSV file as `csv.DictReader` sees it: the header, and per row the
      values of the columns present in it (a short row lacks the rest). */
  datatype CsvFile = CsvFile(fieldnames: seq<string>, rows: seq<map<string, string>>)

  function FieldKey(field: string): string
  {
    Lower(Strip(field))
  }

  /** `{field.strip().lower(): field for field in fieldnames if field.strip()}`:
      later columns overwrite earlier ones with the same key. */
  function FieldIndex(fieldnames: seq<string>): map<string, string>
  {
    if fieldnames == [] then map[]
    else
      var m := FieldIndex(fieldnames[..|fieldnames| - 1]);
      var f := fieldnames[|fieldnames| - 1];
      if Strip(f) != [] then m[FieldKey(f) := f] else m
  }

  /** Each key names a non-blank column with that key, and every non-blank
      column's key is present. */
  lemma {:induction false} FieldIndexSound(fieldnames: seq<string>)
    ensures forall k :: k in FieldIndex(fieldnames) ==>
      FieldIndex(fieldnames)[k] in fieldnames && FieldKey(FieldIndex(fieldnames)[k]) == k
    ensures forall i :: 0 <= i < |fieldnames| && Strip(fieldnames[i]) != [] ==>
      FieldKey(fieldnames[i]) in FieldIndex(fieldnames)
  {
    if fieldnames != [] {
      var init := fieldnames[..|fieldnames| - 1];
      FieldIndexSound(init);
      assert forall i :: 0 <= i < |init| ==> init[i] == fieldnames[i];
      forall k | k in FieldIndex(init) ensures FieldIndex(init)[k] in fieldnames {
        assert FieldIndex(init)[k] in init;
      }
    }
  }

  /** `fields.get("label_pred") or fields.get("label")`. */
  function LabelField(fieldnames: seq<string>): Option<string>
  {
    var idx := FieldIndex(fieldnames);
    if "label_pred" in idx then Some(idx["label_pred"])
    else if "label" in idx then Some(idx["label"])
    else None
  }

  /** The chosen column is a header column whose key is `label_pred`, or
      `label` when no column has the key `label_pred`; there is none exactly
      when no column has either key. */
  lemma LabelFieldChoice(fieldnames: seq<string>)
    ensures LabelField(fieldnames).Some? ==>
      LabelField(fieldnames).value in fieldnames
      && FieldKey(LabelField(fieldnames).value) in {"label_pred", "label"}
    ensures LabelField(fieldnames).Some? && FieldKey(LabelField(fieldnames).value) == "label" ==>
      forall i :: 0 <= i < |fieldnames| ==> FieldKey(fieldnames[i]) != "label_pred"
    ensures LabelField(fieldnames).None? <==>
      forall i :: 0 <= i < |fieldnames| ==> FieldKey(fieldnames[i]) != "label_pred" && FieldKey(fieldnames[i]) != "label"
  {
    FieldIndexSound(fieldnames);
    forall i | 0 <= i < |fieldnames| && FieldKey(fieldnames[i]) in {"label_pred", "label"}
      ensures Strip(fieldnames[i]) != []
    {
      assert |FieldKey(fieldnames[i])| == |Strip(fieldnames[i])|;
    }
  }

  /** The labels of the chosen column, stripped, blanks skipped, in row order. */
  function CsvLabels(field: string, rows: seq<map<string, string>>): seq<string>
  {
    if rows == [] then []
    else
      var row := rows[|rows| - 1];
      var lab := if field in row then Strip(row[field]) else [];
      CsvLabels(field, rows[..|rows| - 1]) + if lab != [] then [lab] else []
  }

  function CsvFileLabels(content: Option<CsvFile>): seq<string>
  {
    match content
    case None => []
    case Some(file) =>
      if file.fieldnames == [] then []
      else match LabelField(file.fieldnames)
        case None => []
        case Some(field) => CsvLabels(field, file.rows)
  }

  /** `parse_labels_from_csv_file(path)`; `content` is None when opening fails. */
  method ParseLabelsFromCsvFile(content: Option<CsvFile>) returns (labels: seq<string>)
    ensures labels == CsvFileLabels(content)
  {
    labels := [];
    if content.None? || content.value.fieldnames == [] {
      return;
    }
    var file := content.value;
    var labelField := LabelField(file.fieldnames);
    if labelField.None? {
      return;
    }
    var field := labelField.value;
    for i := 0 to |file.rows|
      invariant labels == CsvLabels(field, file.rows[..i])
    {
      assert file.rows[..i + 1][..i] == file.rows[..i];
      var row := file.rows[i];
      if field !in row {
        continue;
      }
      var lab := Strip(row[field]);
      if lab != [] {
        labels := labels + [lab];
      }
    }
    assert file.rows[..|file.rows|] == file.rows;
  }

  // ---------------------------------------------------------------------
  // parse_labels_from_file and iter_classified_files
  // ---------------------------------------------------------------------

  /** What reading a path gives: its lines as text, or its header and rows as
      CSV; None where opening fails. */
  datatype Files = Files(text: string -> Option<seq<string>>, table: string -> Option<CsvFile>)

  const CsvSuffix := "_classified.csv"
  const TxtSuffix := "_classified.txt"

  /** `parse_labels_from_file(path)`: dispatch on the suffix. */
  function LabelsOf(files: Files, path: string): seq<string>
  {
    if EndsWith(path, CsvSuffix) then CsvFileLabels(files.table(path))
    else if EndsWith(path, TxtSuffix) then TxtFileLabels(files.text(path))
    else []
  }

  method ParseLabelsFromFile(files: Files, path: string) returns (labels: seq<string>)
    ensures labels == LabelsOf(files, path)
  {
    if EndsWith(path, CsvSuffix) {
      labels := ParseLabelsFromCsvFile(files.table(path));
    } else if EndsWith(path, TxtSuffix) {
      labels := ParseLabelsFromTxtFile(files.text(path));
    } else {
      labels := [];
    }
  }

  lemma {:induction false} TxtLabelsStripped(lines: seq<string>)
    ensures forall l :: l in TxtLabels(lines) ==> l != [] && Strip(l) == l
  {
    if lines != [] {
      TxtLabelsStripped(lines[..|lines| - 1]);
    }
  }

  lemma {:induction false} CsvLabelsStripped(field: string, rows: seq<map<string, string>>)
    ensures forall l :: l in CsvLabels(field, rows) ==> l != [] && Strip(l) == l
  {
    if rows != [] {
      CsvLabelsStripped(field, rows[..|rows| - 1]);
      var row := rows[|rows| - 1];
      if field in row {
        StripStripped(Strip(row[field]));
      }
    }
  }

  /** Both parsers return only non-empty, stripped labels, and other files
      give none. */
  lemma ParsedLabelsStripped(files: Files, path: string)
    ensures forall l :: l in LabelsOf(files, path) ==> l != [] && Strip(l) == l
    ensures !EndsWith(path, CsvSuffix) && !EndsWith(path, TxtSuffix) ==> LabelsOf(files, path) == []
  {
    if EndsWith(path, CsvSuffix) {
      var c := files.table(path);
      if c.Some? && c.value.fieldnames != [] && LabelField(c.value.fieldnames).Some? {
        CsvLabelsStripped(LabelField(c.value.fieldnames).value, c.value.rows);
      }
    } else if EndsWith(path, TxtSuffix) && files.text(path).Some? {
      TxtLabelsStripped(files.text(path).value);
    }
  }

  predicate IsClassifiedName(name: string)
  {
    EndsWith(name, CsvSuffix) || EndsWith(name, TxtSuffix)
  }

  /** The walked paths whose file name has a classified suffix, in walk order. */
  function KeepClassified(paths: seq<string>): (r: seq<string>)
    ensures forall p :: p in r ==> p in paths && IsClassifiedName(Basename(p))
  {
    if paths == [] then []
    else
      var p := paths[|paths| - 1];
      KeepClassified(paths[..|paths| - 1]) + if IsClassifiedName(Basename(p)) then [p] else []
  }

  /** `iter_classified_files(root)`: the classified paths, sorted. */
  function ClassifiedFiles(paths: seq<string>): seq<string>
  {
    Ordering.SortStrings(KeepClassified(paths))
  }

  lemma ClassifiedFilesSorted(paths: seq<string>)
    ensures Ordering.Sorted(ClassifiedFiles(paths), Ordering.StrLt)
    ensures multiset(ClassifiedFiles(paths)) == multiset(KeepClassified(paths))
    ensures forall p :: p in ClassifiedFiles(paths) ==> IsClassifiedName(Basename(p))
  {
    Ordering.SortStringsCorrect(KeepClassified(paths), []);
    forall p | p in ClassifiedFiles(paths) ensures IsClassifiedName(Basename(p)) {
      assert p in multiset(ClassifiedFiles(paths));
      assert p in KeepClassified(paths);
    }
  }

  // ---------------------------------------------------------------------
  // build_aggregated_rows
  // ---------------------------------------------------------------------

  type Key = (string, int)

  datatype Counts = Counts(a: nat, s: nat, i: nat)

  const Zero := Counts(0, 0, 0)

  function Total(c: Counts): nat
  {
    c.a + c.s + c.i
  }

  /** `agg.get(key, zeros)`. */
  function Get(agg: map<Key, Counts>, k: Key): Counts
  {
    if k in agg then agg[k] else Zero
  }

  /** `counts[label]`. */
  function Field(c: Counts, l: Classify.Label): nat
  {
    match l
    case Actionable => c.a
    case Speculative => c.s
    case Irrelevant => c.i
  }

  function Bump(c: Counts, l: Classify.Label): Counts
  {
    match l
    case Actionable => c.(a := c.a + 1)
    case Speculative => c.(s := c.s + 1)
    case Irrelevant => c.(i := c.i + 1)
  }

  /** `if label in VALID_LABELS: agg[key][label] += 1` (the defaultdict makes
      the entry on first use). */
  function AddLabel(agg: map<Key, Counts>, k: Key, lab: string): map<Key, Counts>
  {
    AddParsed(agg, k, Classify.ParseLabel(lab))
  }

  /** Counting one parsed label: nothing for a label outside the three. */
  function AddParsed(agg: map<Key, Counts>, k: Key, parsed: Option<Classify.Label>): map<Key, Counts>
  {
    match parsed
    case None => agg
    case Some(l) => agg[k := Bump(Get(agg, k), l)]
  }

  function AddLabels(agg: map<Key, Counts>, k: Key, labels: seq<string>): map<Key, Counts>
  {
    if labels == [] then agg
    else AddLabel(AddLabels(agg, k, labels[..|labels| - 1]), k, labels[|labels| - 1])
  }

  /** How many of the labels are Actionable, Speculative or Irrelevant. */
  function ValidCount(labels: seq<string>): nat
  {
    if labels == [] then 0
    else ValidCount(labels[..|labels| - 1]) + if Classify.ParseLabel(labels[|labels| - 1]).Some? then 1 else 0
  }

  /** How many of the labels are exactly the name of `l`. */
  function LabelCount(labels: seq<string>, l: Classify.Label): nat
  {
    if labels == [] then 0
    else LabelCount(labels[..|labels| - 1], l) + if Classify.ParseLabel(labels[|labels| - 1]) == Some(l) then 1 else 0
  }

  /** Counting a file's labels adds to each class of its firm-year exactly the
      labels of that class, and touches no other firm-year. */
  lemma {:induction false} AddLabelsCounts(agg: map<Key, Counts>, k: Key, labels: seq<string>)
    ensures forall l :: Field(Get(AddLabels(agg, k, labels), k), l) == Field(Get(agg, k), l) + LabelCount(labels, l)
    ensures Total(Get(AddLabels(agg, k, labels), k)) == Total(Get(agg, k)) + ValidCount(labels)
    ensures forall k' :: k' != k ==> Get(AddLabels(agg, k, labels), k') == Get(agg, k')
    ensures AddLabels(agg, k, labels).Keys <= agg.Keys + {k}
  {
    if labels != [] {
      var init := labels[..|labels| - 1];
      AddLabelsCounts(agg, k, init);
      AddLabelCounts(AddLabels(agg, k, init), k, labels[|labels| - 1]);
    }
  }

  lemma AddLabelCounts(agg: map<Key, Counts>, k: Key, lab: string)
    ensures forall l :: Field(Get(AddLabel(agg, k, lab), k), l)
                     == Field(Get(agg, k), l) + if Classify.ParseLabel(lab) == Some(l) then 1 else 0
    ensures Total(Get(AddLabel(agg, k, lab), k))
         == Total(Get(agg, k)) + if Classify.ParseLabel(lab).Some? then 1 else 0
    ensures forall k' :: k' != k ==> Get(AddLabel(agg, k, lab), k') == Get(agg, k')
    ensures AddLabel(agg, k, lab).Keys <= agg.Keys + {k}
  {
    AddParsedCounts(agg, k, Classify.ParseLabel(lab));
  }

  lemma AddParsedCounts(agg: map<Key, Counts>, k: Key, parsed: Option<Classify.Label>)
    ensures forall l :: Field(Get(AddParsed(agg, k, parsed), k), l)
                     == Field(Get(agg, k), l) + if parsed == Some(l) then 1 else 0
    ensures Total(Get(AddParsed(agg, k, parsed), k)) == Total(Get(agg, k)) + if parsed.Some? then 1 else 0
    ensures forall k' :: k' != k ==> Get(AddParsed(agg, k, parsed), k') == Get(agg, k')
    ensures AddParsed(agg, k, parsed).Keys <= agg.Keys + {k}
  {
    if parsed.Some? {
      var c := Get(agg, k);
      var m := agg[k := Bump(c, parsed.value)];
      assert AddParsed(agg, k, parsed) == m;
      BumpFields(c, parsed.value);
    }
  }

  /** Bumping a class adds one to its own count, to no other, and one to the total. */
  lemma BumpFields(c: Counts, l0: Classify.Label)
    ensures forall l :: Field(Bump(c, l0), l) == Field(c, l) + if Some(l0) == Some(l) then 1 else 0
    ensures Total(Bump(c, l0)) == Total(c) + 1
  {
  }

  /** The firm-year of a classified file, when its name yields one. */
  function FileKey(path: string): Option<Key>
  {
    var (year, cik) := ExtractYearAndCik(Basename(path));
    if year == -1 || cik == "unknown" then None else Some((cik, year))
  }

  /** The labels a file contributes: the current parser, or the legacy
      text-only one (whose unreadable files are handled by the caller). */
  function LabelsFor(files: Files, legacy: bool, path: string): seq<string>
  {
    if legacy then TxtFileLabels(files.text(path)) else LabelsOf(files, path)
  }

  /** The counters after a scan: `agg`, `firm_years_seen` (in first-seen
      order) and `used_files`. */
  datatype Scan = Scan(agg: map<Key, Counts>, seen: seq<Key>, used: nat)

  /** One file of the scan, given its firm-year (if its name yields one) and
      its labels. */
  function Step(st: Scan, key: Option<Key>, labels: seq<string>): Scan
  {
    match key
    case None => st
    case Some(k) =>
      var seen := if k in st.seen then st.seen else st.seen + [k];
      if labels == [] then Scan(st.agg, seen, st.used)
      else Scan(AddLabels(st.agg, k, labels), seen, st.used + 1)
  }

  function ScanFiles(files: Files, legacy: bool, paths: seq<string>): Scan
  {
    if paths == [] then Scan(map[], [], 0)
    else
      var p := paths[|paths| - 1];
      Step(ScanFiles(files, legacy, paths[..|paths| - 1]), FileKey(p), LabelsFor(files, legacy, p))
  }

  /** One row of the output table. */
  datatype Row = Row(cik: string, year: int, aCount: nat, sCount: nat, iCount: nat, totalCount: nat)

  function RowOf(k: Key, c: Counts): (r: Row)
  {
    Row(k.0, k.1, c.a, c.s, c.i, c.a + c.s + c.i)
  }

  /** One row per key, in the given order, with zero counts for a key never
      counted. */
  function RowsFor(keys: seq<Key>, agg: map<Key, Counts>): (rows: seq<Row>)
    ensures |rows| == |keys|
    ensures forall j :: 0 <= j < |keys| ==> rows[j] == RowOf(keys[j], Get(agg, keys[j]))
  {
    if keys == [] then []
    else RowsFor(keys[..|keys| - 1], agg) + [RowOf(keys[|keys| - 1], Get(agg, keys[|keys| - 1]))]
  }

  /** The row loop: one row per sorted firm-year key. */
  method EmitRows(keys: seq<Key>, agg: map<Key, Counts>) returns (rows: seq<Row>)
    ensures rows == RowsFor(keys, agg)
  {
    rows := [];
    for j := 0 to |keys|
      invariant rows == RowsFor(keys[..j], agg)
    {
      assert keys[..j + 1][..j] == keys[..j];
      var c := Get(agg, keys[j]);
      rows := rows + [Row(keys[j].0, keys[j].1, c.a, c.s, c.i, c.a + c.s + c.i)];
    }
    assert keys[..|keys|] == keys;
  }

  /** The inner loop over one file's labels. */
  method CountLabels(agg0: map<Key, Counts>, k: Key, labels: seq<string>) returns (agg: map<Key, Counts>)
    ensures agg == AddLabels(agg0, k, labels)
  {
    agg := agg0;
    for j := 0 to |labels|
      invariant agg == AddLabels(agg0, k, labels[..j])
    {
      assert labels[..j + 1][..j] == labels[..j];
      var parsed := Classify.ParseLabel(labels[j]);
      if parsed.Some? {
        agg := agg[k := Bump(Get(agg, k), parsed.value)];
      }
    }
    assert labels[..|labels|] == labels;
  }

  lemma ScanStep(files: Files, legacy: bool, paths: seq<string>, i: nat)
    requires i < |paths|
    ensures ScanFiles(files, legacy, paths[..i + 1])
         == Step(ScanFiles(files, legacy, paths[..i]), FileKey(paths[i]), LabelsFor(files, legacy, paths[i]))
  {
    assert paths[..i + 1][..i] == paths[..i];
  }

  /** `build_aggregated_rows(root)`: `walked` lists the files below the root.
      Returns the rows, the number of classified files, the number of files
      with at least one label, and the number of firm-years. */
  method BuildAggregatedRows(files: Files, walked: seq<string>)
    returns (rows: seq<Row>, classifiedFiles: nat, usedFiles: nat, firmYears: nat)
    ensures var paths := ClassifiedFiles(walked);
      var st := ScanFiles(files, false, paths);
      classifiedFiles == |paths| && usedFiles == st.used
      && rows == RowsFor(Ordering.Sort(st.seen, Ordering.KeyLt), st.agg)
      && firmYears == |rows|
    ensures var paths := ClassifiedFiles(walked);
      forall j :: 0 <= j < |rows| ==>
        var k := (rows[j].cik, rows[j].year);
        rows[j].aCount == LabelTally(files, false, paths, k, Classify.Actionable)
        && rows[j].sCount == LabelTally(files, false, paths, k, Classify.Speculative)
        && rows[j].iCount == LabelTally(files, false, paths, k, Classify.Irrelevant)
        && rows[j].totalCount == ValidLabelsOf(files, false, paths, k)
  {
    var paths := ClassifiedFiles(walked);
    var agg: map<Key, Counts> := map[];
    var seen: seq<Key> := [];
    classifiedFiles, usedFiles := 0, 0;
    for i := 0 to |paths|
      invariant classifiedFiles == i
      invariant ScanFiles(files, false, paths[..i]) == Scan(agg, seen, usedFiles)
    {
      ScanStep(files, false, paths, i);
      classifiedFiles := classifiedFiles + 1;
      var key := FileKey(paths[i]);
      if key.None? {
        continue;
      }
      if key.value !in seen {
        seen := seen + [key.value];
      }
      var labels := ParseLabelsFromFile(files, paths[i]);
      if labels == [] {
        continue;
      }
      usedFiles := usedFiles + 1;
      agg := CountLabels(agg, key.value, labels);
    }
    assert paths[..|paths|] == paths;
    ScanAggKeysSeen(files, false, paths);
    // all_keys = set(agg) | firm_years_seen, which is firm_years_seen
    var allKeys := Ordering.Sort(seen, Ordering.KeyLt);
    rows := EmitRows(allKeys, agg);
    firmYears := |allKeys|;
    RowsCountLabels(files, false, paths);
  }

  /** `main` of the older copy: only `_classified.txt` files, in walk order;
      opening a file is not guarded, so an unreadable one ends the run. */
  method LegacyAggregate(files: Files, walked: seq<string>)
    returns (r: Result<(seq<Row>, nat, nat)>)
    ensures var paths := KeepLegacy(walked);
      r.Failure? <==> exists j :: 0 <= j < |paths| && Unreadable(files, paths[j])
    ensures var paths := KeepLegacy(walked);
      var st := ScanFiles(files, true, paths);
      r.Success? ==> r.value == (RowsFor(Ordering.Sort(st.seen, Ordering.KeyLt), st.agg), |paths|, st.used)
    ensures var paths := KeepLegacy(walked);
      r.Success? ==> forall j :: 0 <= j < |r.value.0| ==>
        var row := r.value.0[j];
        var k := (row.cik, row.year);
        row.aCount == LabelTally(files, true, paths, k, Classify.Actionable)
        && row.sCount == LabelTally(files, true, paths, k, Classify.Speculative)
        && row.iCount == LabelTally(files, true, paths, k, Classify.Irrelevant)
        && row.totalCount == ValidLabelsOf(files, true, paths, k)
  {
    var paths := KeepLegacy(walked);
    var st, failed := LegacyScan(files, paths);
    AllReadableEach(files, paths);
    if failed.Some? {
      return Failure("cannot open " + paths[failed.value]);
    }
    assert forall j :: 0 <= j < |paths| ==> !Unreadable(files, paths[j]);
    var rows := EmitRows(Ordering.Sort(st.seen, Ordering.KeyLt), st.agg);
    RowsCountLabels(files, true, paths);
    return Success((rows, |paths|, st.used));
  }

  /** A file whose name gives a firm-year but which cannot be opened. */
  predicate Unreadable(files: Files, path: string)
  {
    FileKey(path).Some? && files.text(path).None?
  }

  /** No file of the list ends the older `main`. */
  predicate AllReadable(files: Files, paths: seq<string>)
  {
    paths == [] || (AllReadable(files, paths[..|paths| - 1]) && !Unreadable(files, paths[|paths| - 1]))
  }

  lemma AllReadableEach(files: Files, paths: seq<string>)
    ensures AllReadable(files, paths) <==> forall j :: 0 <= j < |paths| ==> !Unreadable(files, paths[j])
  {
    var bad := p => Unreadable(files, p);
    AllReadableNoneBad(files, paths);
    NoneBadEach(bad, paths);
  }

  lemma {:induction false} AllReadableNoneBad(files: Files, paths: seq<string>)
    ensures AllReadable(files, paths) == NoneBad(p => Unreadable(files, p), paths)
  {
    if paths != [] {
      AllReadableNoneBad(files, paths[..|paths| - 1]);
    }
  }

  /** No path of the list is `bad`. */
  predicate NoneBad(bad: string -> bool, paths: seq<string>)
  {
    paths == [] || (NoneBad(bad, paths[..|paths| - 1]) && !bad(paths[|paths| - 1]))
  }

  lemma {:induction false} NoneBadEach(bad: string -> bool, paths: seq<string>)
    ensures NoneBad(bad, paths) <==> forall j :: 0 <= j < |paths| ==> !bad(paths[j])
  {
    if paths != [] {
      var init := paths[..|paths| - 1];
      NoneBadEach(bad, init);
      assert forall j :: 0 <= j < |init| ==> init[j] == paths[j];
    }
  }

  /** The loop of the older `main`: stops at the first file with a firm-year
      that cannot be opened. */
  method LegacyScan(files: Files, paths: seq<string>) returns (st: Scan, failed: Option<nat>)
    ensures failed.Some? ==> failed.value < |paths| && Unreadable(files, paths[failed.value])
    ensures failed.None? ==> st == ScanFiles(files, true, paths)
    ensures failed.None? ==> AllReadable(files, paths)
  {
    var agg: map<Key, Counts> := map[];
    var seen: seq<Key> := [];
    var usedFiles := 0;
    for i := 0 to |paths|
      invariant ScanFiles(files, true, paths[..i]) == Scan(agg, seen, usedFiles)
      invariant AllReadable(files, paths[..i])
    {
      ScanStep(files, true, paths, i);
      assert paths[..i + 1][..i] == paths[..i];
      var key := FileKey(paths[i]);
      if key.None? {
        continue;
      }
      if key.value !in seen {
        seen := seen + [key.value];
      }
      var content := files.text(paths[i]);
      if content.None? {
        return Scan(agg, seen, usedFiles), Some(i);
      }
      var labels := ParseLabelsFromTxtFile(content);
      if labels == [] {
        continue;
      }
      usedFiles := usedFiles + 1;
      agg := CountLabels(agg, key.value, labels);
    }
    assert paths[..|paths|] == paths;
    return Scan(agg, seen, usedFiles), None;
  }

  /** The legacy walk keeps names ending `_classified.txt`, in walk order. */
  function KeepLegacy(paths: seq<string>): (r: seq<string>)
    ensures forall p :: p in r ==> p in paths && EndsWith(Basename(p), TxtSuffix)
  {
    if paths == [] then []
    else
      var p := paths[|paths| - 1];
      KeepLegacy(paths[..|paths| - 1]) + if EndsWith(Basename(p), TxtSuffix) then [p] else []
  }

  // ---------------------------------------------------------------------
  // Properties of the scan
  // ---------------------------------------------------------------------

  /** The firm-years of the files' names. */
  ghost function FileKeys(paths: seq<string>): set<Key>
  {
    if paths == [] then {}
    else
      var p := paths[|paths| - 1];
      FileKeys(paths[..|paths| - 1]) + if FileKey(p).Some? then {FileKey(p).value} else {}
  }

  lemma {:induction false} FileKeysMember(paths: seq<string>, k: Key)
    ensures k in FileKeys(paths) <==> exists j :: 0 <= j < |paths| && FileKey(paths[j]) == Some(k)
  {
    if paths != [] {
      var init := paths[..|paths| - 1];
      FileKeysMember(init, k);
      if k in FileKeys(init) {
        var j :| 0 <= j < |init| && FileKey(init[j]) == Some(k);
        assert paths[j] == init[j];
      }
      if j :| 0 <= j < |paths| - 1 && FileKey(paths[j]) == Some(k) {
        assert init[j] == paths[j];
      }
    }
  }

  /** What the scan keeps true: counted firm-years were seen, the seen list has
      no repeats, and a file is used only once it is counted as classified. */
  ghost predicate ScanInvariant(st: Scan, keys: set<Key>, n: nat)
  {
    (forall k :: k in st.agg ==> k in st.seen)
    && (forall i, j :: 0 <= i < j < |st.seen| ==> st.seen[i] != st.seen[j])
    && (forall k :: k in st.seen <==> k in keys)
    && st.used <= n
  }

  lemma StepInvariant(st: Scan, keys: set<Key>, n: nat, key: Option<Key>, labels: seq<string>)
    requires ScanInvariant(st, keys, n)
    ensures ScanInvariant(Step(st, key, labels), keys + if key.Some? then {key.value} else {}, n + 1)
  {
    if key.Some? {
      AddLabelsCounts(st.agg, key.value, labels);
    }
  }

  /** Every counted firm-year was seen, so `set(agg) | firm_years_seen` is the
      seen list; the seen firm-years are distinct and are exactly those of the
      files; `used_files <= classified_files`. */
  lemma {:induction false} ScanAggKeysSeen(files: Files, legacy: bool, paths: seq<string>)
    ensures ScanInvariant(ScanFiles(files, legacy, paths), FileKeys(paths), |paths|)
  {
    if paths != [] {
      var init := paths[..|paths| - 1];
      var p := paths[|paths| - 1];
      ScanAggKeysSeen(files, legacy, init);
      StepInvariant(ScanFiles(files, legacy, init), FileKeys(init), |init|, FileKey(p), LabelsFor(files, legacy, p));
    }
  }

  /** The valid labels of the files whose name gives firm-year `k`. */
  function ValidLabelsOf(files: Files, legacy: bool, paths: seq<string>, k: Key): nat
  {
    if paths == [] then 0
    else
      var p := paths[|paths| - 1];
      ValidLabelsOf(files, legacy, paths[..|paths| - 1], k)
      + if FileKey(p) == Some(k) then ValidCount(LabelsFor(files, legacy, p)) else 0
  }

  /** The labels of class `l` in the files whose name gives firm-year `k`. */
  function LabelTally(files: Files, legacy: bool, paths: seq<string>, k: Key, l: Classify.Label): nat
  {
    if paths == [] then 0
    else
      var p := paths[|paths| - 1];
      LabelTally(files, legacy, paths[..|paths| - 1], k, l)
      + if FileKey(p) == Some(k) then LabelCount(LabelsFor(files, legacy, p), l) else 0
  }

  lemma StepCounts(st: Scan, key: Option<Key>, labels: seq<string>, k: Key)
    ensures forall l :: Field(Get(Step(st, key, labels).agg, k), l)
                     == Field(Get(st.agg, k), l) + if key == Some(k) then LabelCount(labels, l) else 0
    ensures Total(Get(Step(st, key, labels).agg, k))
         == Total(Get(st.agg, k)) + if key == Some(k) then ValidCount(labels) else 0
  {
    if key.Some? {
      var k0 := key.value;
      if labels == [] {
        assert Step(st, key, labels).agg == st.agg;
        assert ValidCount(labels) == 0;
      } else {
        assert Step(st, key, labels).agg == AddLabels(st.agg, k0, labels);
        AddLabelsCounts(st.agg, k0, labels);
        if k0 != k {
          assert Get(AddLabels(st.agg, k0, labels), k) == Get(st.agg, k);
        }
      }
    }
  }

  /** A firm-year's count of each class is the number of labels of that class
      in its files, and its total the number of valid labels: nothing is lost
      and nothing is counted twice, under another class or under another
      firm-year. */
  lemma {:induction false} ScanCountsLabels(files: Files, legacy: bool, paths: seq<string>, k: Key)
    ensures forall l :: Field(Get(ScanFiles(files, legacy, paths).agg, k), l) == LabelTally(files, legacy, paths, k, l)
    ensures Total(Get(ScanFiles(files, legacy, paths).agg, k)) == ValidLabelsOf(files, legacy, paths, k)
  {
    if paths != [] {
      var init := paths[..|paths| - 1];
      var p := paths[|paths| - 1];
      ScanCountsLabels(files, legacy, init, k);
      StepCounts(ScanFiles(files, legacy, init), FileKey(p), LabelsFor(files, legacy, p), k);
    }
  }

  /** Each row's A, S and I counts are the numbers of Actionable, Speculative
      and Irrelevant labels in the files of its firm-year, and its total the
      number of valid labels there. */
  lemma RowsCountLabels(files: Files, legacy: bool, paths: seq<string>)
    ensures var st := ScanFiles(files, legacy, paths);
      var rows := RowsFor(Ordering.Sort(st.seen, Ordering.KeyLt), st.agg);
      forall j :: 0 <= j < |rows| ==>
        var k := (rows[j].cik, rows[j].year);
        rows[j].aCount == LabelTally(files, legacy, paths, k, Classify.Actionable)
        && rows[j].sCount == LabelTally(files, legacy, paths, k, Classify.Speculative)
        && rows[j].iCount == LabelTally(files, legacy, paths, k, Classify.Irrelevant)
        && rows[j].totalCount == ValidLabelsOf(files, legacy, paths, k)
  {
    var st := ScanFiles(files, legacy, paths);
    var rows := RowsFor(Ordering.Sort(st.seen, Ordering.KeyLt), st.agg);
    forall j | 0 <= j < |rows|
      ensures var k := (rows[j].cik, rows[j].year);
        rows[j].aCount == LabelTally(files, legacy, paths, k, Classify.Actionable)
        && rows[j].sCount == LabelTally(files, legacy, paths, k, Classify.Speculative)
        && rows[j].iCount == LabelTally(files, legacy, paths, k, Classify.Irrelevant)
        && rows[j].totalCount == ValidLabelsOf(files, legacy, paths, k)
    {
      RowCounts(files, legacy, paths, st.agg, rows[j]);
    }
  }

  /** One row built from the scan's counts of its own firm-year. */
  lemma RowCounts(files: Files, legacy: bool, paths: seq<string>, agg: map<Key, Counts>, r: Row)
    requires agg == ScanFiles(files, legacy, paths).agg
    requires r == RowOf((r.cik, r.year), Get(agg, (r.cik, r.year)))
    ensures var k := (r.cik, r.year);
      r.aCount == LabelTally(files, legacy, paths, k, Classify.Actionable)
      && r.sCount == LabelTally(files, legacy, paths, k, Classify.Speculative)
      && r.iCount == LabelTally(files, legacy, paths, k, Classify.Irrelevant)
      && r.totalCount == ValidLabelsOf(files, legacy, paths, k)
  {
    var k := (r.cik, r.year);
    var c := Get(agg, k);
    ScanCountsLabels(files, legacy, paths, k);
    assert Field(c, Classify.Actionable) == c.a && Field(c, Classify.Speculative) == c.s;
    assert Field(c, Classify.Irrelevant) == c.i;
  }

  /** The rows are strictly ordered by (cik, year), so there is exactly one row
      per firm-year, and the firm-years are exactly those of the files. */
  lemma RowsOrderedAndComplete(files: Files, legacy: bool, paths: seq<string>)
    ensures var st := ScanFiles(files, legacy, paths);
      var rows := RowsFor(Ordering.Sort(st.seen, Ordering.KeyLt), st.agg);
      (forall i, j :: 0 <= i < j < |rows| ==> Ordering.KeyLt((rows[i].cik, rows[i].year), (rows[j].cik, rows[j].year)))
      && (forall j :: 0 <= j < |rows| ==> (rows[j].cik, rows[j].year) in FileKeys(paths))
      && (forall k :: k in FileKeys(paths) ==> exists j :: 0 <= j < |rows| && (rows[j].cik, rows[j].year) == k)
  {
    var st := ScanFiles(files, legacy, paths);
    ScanAggKeysSeen(files, legacy, paths);
    var keys := Ordering.Sort(st.seen, Ordering.KeyLt);
    SortedKeys(st.seen, keys);
    var rows := RowsFor(keys, st.agg);
    assert forall j :: 0 <= j < |rows| ==> (rows[j].cik, rows[j].year) == keys[j];
    forall k | k in FileKeys(paths) ensures exists j :: 0 <= j < |rows| && (rows[j].cik, rows[j].year) == k {
      var j :| 0 <= j < |keys| && keys[j] == k;
      assert (rows[j].cik, rows[j].year) == k;
    }
  }

  /** Sorting the distinct seen firm-years gives them strictly ordered, each once. */
  lemma SortedKeys(seen: seq<Key>, keys: seq<Key>)
    requires keys == Ordering.Sort(seen, Ordering.KeyLt)
    requires forall i, j :: 0 <= i < j < |seen| ==> seen[i] != seen[j]
    ensures forall i, j :: 0 <= i < j < |keys| ==> Ordering.KeyLt(keys[i], keys[j])
    ensures forall k :: k in keys <==> k in seen
  {
    Ordering.KeyLtIsStrictTotalOrder();
    Ordering.SortSorted(seen, Ordering.KeyLt);
    Ordering.PermutationDistinct(seen, keys);
    Ordering.SortedDistinctStrict(keys, Ordering.KeyLt);
    forall k ensures k in keys <==> k in seen {
      assert k in keys <==> k in multiset(keys);
      assert k in seen <==> k in multiset(seen);
    }
  }
}
