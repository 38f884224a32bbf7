// The extraction drivers: `src/semantic_ai_washing/data/extract_ai_sentences.py`
// and its older copy `src/scripts/filter_ai_sentences.py`. Filing names are
// parsed into year, form and CIK, year folders are walked for filings, each
// filing is turned into a `*_ai_sentences.txt` file, and a run is tallied.

module Extract {
  import opened Common
  import opened Text
  import Ordering
  import Counting
  import Aggregate
  import SentenceFilter

  // ---------------------------------------------------------------------
  // Paths
  // ---------------------------------------------------------------------

  /** `os.path.join(a, b)` (POSIX) for two parts. */
  function Join(a: string, b: string): string
  {
    if b != [] && b[0] == '/' then b
    else if a == [] || a[|a| - 1] == '/' then a + b
    else a + "/" + b
  }

  /** Appending a slash-free tail does not move the last slash. */
  lemma {:induction false} AfterLastSlashAppend(x: string, tail: string)
    requires '/' !in tail
    ensures AfterLastSlash(x + tail) == AfterLastSlash(x)
    decreases |tail|
  {
    if tail != [] {
      var t := tail[..|tail| - 1];
      assert (x + tail)[..|x + tail| - 1] == x + t;
      assert tail[|tail| - 1] in tail;
      AfterLastSlashAppend(x, t);
    } else {
      assert x + tail == x;
    }
  }

  /** The last part of `dir/name` is `name`, and its folder is `dir`. */
  lemma SplitPath(dir: string, name: string)
    requires '/' !in name
    requires dir != [] && dir[|dir| - 1] != '/'
    ensures Basename(Join(dir, name)) == name
    ensures Dirname(Join(dir, name)) == dir
  {
    var p := dir + "/" + name;
    assert name == [] || name[0] in name;
    assert Join(dir, name) == p;
    AfterLastSlashAppend(dir + "/", name);
    assert (dir + "/")[..|dir|] == dir;
    assert AfterLastSlash(dir + "/") == |dir| + 1;
    assert p[|dir| + 1..] == name;
    assert p[..|dir| + 1] == dir + "/";
    assert RStripSlash(dir + "/") == RStripSlash(dir);
  }

  /** A name with a slash-free ending keeps that ending as its last part's ending. */
  lemma BasenameKeepsSuffix(x: string, suffix: string)
    requires '/' !in suffix
    ensures EndsWith(Basename(x + suffix), suffix)
  {
    AfterLastSlashAppend(x, suffix);
    var k := AfterLastSlash(x);
    assert (x + suffix)[k..] == x[k..] + suffix;
  }

  /** A name without a slash is its own last part. */
  lemma BasenameOfName(name: string)
    requires '/' !in name
    ensures Basename(name) == name
  {
    AfterLastSlashAppend([], name);
    assert [] + name == name;
  }

  // ---------------------------------------------------------------------
  // looks_like_year, parse_form_from_filename, parse_cik_from_filename
  // ---------------------------------------------------------------------

  /** `name.isdigit() and len(name) == 4`. */
  predicate LooksLikeYear(name: string)
  {
    IsDigitString(name) && |name| == 4
  }

  /** Every four-digit year, written out, is a year-like folder name. */
  lemma YearNamesLookLikeYears(y: nat)
    requires 1000 <= y <= 9999
    ensures LooksLikeYear(NatToString(y))
    ensures DecimalValue(NatToString(y)) == y
  {
    assert y / 10 / 10 == y / 100 && y / 100 / 10 == y / 1000;
    assert |NatToString(y / 1000)| == 1;
    assert |NatToString(y / 100)| == 2;
    assert |NatToString(y / 10)| == 3;
  }

  /** `any(c.isalpha() for c in s)`. */
  predicate HasLetter(s: string)
  {
    s != [] && (IsLetter(s[0]) || HasLetter(s[1..]))
  }

  /** The second field of `name.split("_")`, when there are two or more. */
  function SecondField(name: string): (r: Option<string>)
    ensures r.Some? ==> '_' !in r.value
  {
    match IndexOf(name, "_")
    case None => None
    case Some(i) =>
      var t := name[i + 1..];
      match IndexOf(t, "_")
      case None => assert !Contains(t, "_"); NotContained(t, '_'); Some(t)
      case Some(j) => Before(t, '_', j); Some(t[..j])
  }

  /** No occurrence of the one-character string means the character is absent. */
  lemma NotContained(s: string, c: char)
    requires !Contains(s, [c])
    ensures c !in s
  {
    forall i | 0 <= i < |s| ensures s[i] != c {
      assert !OccursAt(s, i, [c]);
      assert s[i..i + 1] == [s[i]];
    }
  }

  /** Before the first occurrence of a character, the character is absent. */
  lemma Before(s: string, c: char, j: nat)
    requires OccursAt(s, j, [c]) && forall k: nat :: k < j ==> !OccursAt(s, k, [c])
    ensures c !in s[..j]
  {
    forall i | 0 <= i < j ensures s[..j][i] != c {
      assert !OccursAt(s, i, [c]);
      assert s[i..i + 1] == [s[i]];
    }
  }

  /** `parse_form_from_filename`: the second '_'-field of the last path part,
      when it holds a letter or a '-'. */
  function ParseFormFromFilename(filename: string): (r: Option<string>)
    ensures r.Some? ==> r.value != [] && '_' !in r.value
  {
    match SecondField(Basename(filename))
    case None => None
    case Some(f) => if HasLetter(f) || '-' in f then Some(f) else None
  }

  /** The second field of `<a>_<b>_<rest>` is `b`. */
  lemma SecondFieldOf(a: string, b: string, rest: string)
    requires '_' !in a && '_' !in b
    ensures SecondField(a + "_" + b + "_" + rest) == Some(b)
  {
    var name := a + "_" + b + "_" + rest;
    assert name[|a|..|a| + 1] == "_";
    forall k: nat | k < |a| ensures !OccursAt(name, k, "_") {
      assert name[k] == a[k];
    }
    IndexOfIs(name, "_", |a|);
    var t := name[|a| + 1..];
    assert t == b + "_" + rest;
    assert t[|b|..|b| + 1] == "_";
    forall k: nat | k < |b| ensures !OccursAt(t, k, "_") {
      assert t[k] == b[k];
    }
    IndexOfIs(t, "_", |b|);
    assert t[..|b|] == b;
  }

  /** A filing name `<date>_<form>_<rest>` gives back its form when the form
      holds a letter or '-', and nothing otherwise. */
  lemma ParseFormOfFilingName(date: string, form: string, rest: string)
    requires '_' !in date && '_' !in form
    requires '/' !in date && '/' !in form && '/' !in rest
    ensures ParseFormFromFilename(date + "_" + form + "_" + rest)
         == if HasLetter(form) || '-' in form then Some(form) else None
  {
    var name := date + "_" + form + "_" + rest;
    assert '/' !in name;
    BasenameOfName(name);
    SecondFieldOf(date, form, rest);
  }

  /** A name with no '_' has no form. */
  lemma NoFieldNoForm(filename: string)
    requires '_' !in Basename(filename)
    ensures ParseFormFromFilename(filename).None?
  {
    var b := Basename(filename);
    forall i: nat | i <= |b| ensures !OccursAt(b, i, "_") {
      if i < |b| {
        assert b[i] != '_';
        assert b[i..i + 1][0] == b[i];
      }
    }
  }

  /** `parse_cik_from_filename`: the digits of the first `edgar_data_<digits>_`. */
  function ParseCikFromFilename(filename: string): (r: Option<string>)
    ensures r.Some? ==> IsDigitString(r.value)
  {
    match Aggregate.FirstCikAt(filename, 0)
    case None => None
    case Some(p) => Some(Aggregate.CikFrom(filename, p))
  }

  /** The same regular expression as the aggregation's CIK rule: the two
      agree, with "unknown" standing for no match. */
  lemma ParseCikAgrees(filename: string)
    ensures ParseCikFromFilename(filename)
         == if Aggregate.CikOf(filename) == "unknown" then None else Some(Aggregate.CikOf(filename))
  {
    Aggregate.CikSearchFirst(filename, 0);
  }

  // ---------------------------------------------------------------------
  // filing_context
  // ---------------------------------------------------------------------

  /** Python's `x or "unknown"` on an optional string. */
  function OrUnknown(o: Option<string>): string
  {
    if o.Some? && o.value != [] then o.value else "unknown"
  }

  /** `re.match(r"(\d{4})", base)`. */
  function LeadingYear(base: string): (r: Option<string>)
    ensures r.Some? ==> LooksLikeYear(r.value)
  {
    if |base| >= 4 && IsDigitString(base[..4]) then Some(base[..4]) else None
  }

  /** `filing_context(path)`: (year, form, cik), each "unknown" when absent. */
  function FilingContext(path: string): (r: (string, string, string))
    ensures r.0 == "unknown" || LooksLikeYear(r.0)
    ensures r.1 == "unknown" || '_' !in r.1
    ensures r.2 == "unknown" || IsDigitString(r.2)
  {
    var base := Basename(path);
    (ContextYear(Basename(Dirname(path)), base), OrUnknown(ParseFormFromFilename(base)), OrUnknown(ParseCikFromFilename(base)))
  }

  /** The year of `filing_context`: the folder when year-like, else the
      name's leading four digits, else "unknown". */
  function ContextYear(folder: string, base: string): (y: string)
    ensures y == "unknown" || LooksLikeYear(y)
  {
    if LooksLikeYear(folder) then folder else OrUnknown(LeadingYear(base))
  }

  /** The usual EDGAR file name `<date>_<form>_edgar_data_<cik>_<rest>`. */
  function FilingName(date: string, form: string, cik: string, rest: string): string
  {
    date + "_" + form + "_" + Aggregate.EdgarMarker + cik + "_" + rest
  }

  /** The shape `FilingName` needs to be read back. */
  predicate UsualParts(date: string, form: string, cik: string, rest: string)
  {
    && |date| >= 4 && IsDigitString(date)
    && form != [] && '_' !in form && '/' !in form && 'e' !in form && (HasLetter(form) || '-' in form)
    && IsDigitString(cik) && '/' !in rest
  }

  lemma DigitsExclude(s: string, c: char)
    requires IsDigitString(s) && !IsDigit(c)
    ensures c !in s
  {
    forall i | 0 <= i < |s| ensures s[i] != c {
      assert IsDigit(s[i]);
    }
  }

  /** A usual file name has no '/' and is its own last part. */
  lemma FilingNameIsName(date: string, form: string, cik: string, rest: string)
    requires UsualParts(date, form, cik, rest)
    ensures '/' !in FilingName(date, form, cik, rest)
    ensures Basename(FilingName(date, form, cik, rest)) == FilingName(date, form, cik, rest)
  {
    DigitsExclude(date, '/');
    DigitsExclude(cik, '/');
    assert '/' !in Aggregate.EdgarMarker;
    BasenameOfName(FilingName(date, form, cik, rest));
  }

  /** The form of a usual file name is its second field. */
  lemma FormOfFilingName(date: string, form: string, cik: string, rest: string)
    requires UsualParts(date, form, cik, rest)
    ensures ParseFormFromFilename(FilingName(date, form, cik, rest)) == Some(form)
  {
    var tail := Aggregate.EdgarMarker + cik + "_" + rest;
    DigitsExclude(date, '_');
    assert FilingName(date, form, cik, rest) == date + "_" + form + "_" + tail;
    FilingNameIsName(date, form, cik, rest);
    SecondFieldOf(date, form, tail);
  }

  /** The CIK of a usual file name is its digits after the marker. */
  lemma CikOfFilingName(date: string, form: string, cik: string, rest: string)
    requires UsualParts(date, form, cik, rest)
    ensures ParseCikFromFilename(FilingName(date, form, cik, rest)) == Some(cik)
    ensures LeadingYear(FilingName(date, form, cik, rest)) == Some(date[..4])
  {
    var name := FilingName(date, form, cik, rest);
    Aggregate.ExtractFromFilingName(date, form, cik, rest);
    ParseCikAgrees(name);
    DigitsExclude(cik, 'u');
    assert "unknown"[0] == 'u';
    assert name[..4] == date[..4];
  }

  /** A filing stored as `<root>/<folder>/<date>_<form>_edgar_data_<cik>_<rest>`:
      the year is the folder when it is year-like and otherwise the date's
      first four digits; the form and the CIK are read back. */
  lemma FilingContextOfLayout(root: string, folder: string, date: string, form: string, cik: string, rest: string)
    requires root != [] && root[|root| - 1] != '/'
    requires folder != [] && '/' !in folder
    requires UsualParts(date, form, cik, rest)
    ensures FilingContext(Join(Join(root, folder), FilingName(date, form, cik, rest)))
         == (if LooksLikeYear(folder) then folder else date[..4], form, cik)
  {
    var name := FilingName(date, form, cik, rest);
    var y := ParsedFilingName(date, form, cik, rest);
    FilingContextOf(root, folder, name, y, form, cik);
  }

  /** What a usual file name parses to. */
  lemma ParsedFilingName(date: string, form: string, cik: string, rest: string) returns (y: string)
    requires UsualParts(date, form, cik, rest)
    ensures y == date[..4]
    ensures '/' !in FilingName(date, form, cik, rest)
    ensures LeadingYear(FilingName(date, form, cik, rest)) == Some(y)
    ensures ParseFormFromFilename(FilingName(date, form, cik, rest)) == Some(form)
    ensures ParseCikFromFilename(FilingName(date, form, cik, rest)) == Some(cik)
  {
    FilingNameIsName(date, form, cik, rest);
    FormOfFilingName(date, form, cik, rest);
    CikOfFilingName(date, form, cik, rest);
    y := date[..4];
  }

  /** The context of `root/folder/name` from what the name parses to. */
  lemma FilingContextOf(root: string, folder: string, name: string, y: string, form: string, cik: string)
    requires root != [] && root[|root| - 1] != '/'
    requires folder != [] && '/' !in folder && '/' !in name
    requires LeadingYear(name) == Some(y)
    requires ParseFormFromFilename(name) == Some(form) && ParseCikFromFilename(name) == Some(cik)
    ensures FilingContext(Join(Join(root, folder), name)) == (if LooksLikeYear(folder) then folder else y, form, cik)
  {
    NestedPath(root, folder, name);
    OrUnknownSome(y);
    OrUnknownSome(form);
    OrUnknownSome(cik);
  }

  /** In `root/folder/name`, the last part is `name` and its folder's last
      part is `folder`. */
  lemma NestedPath(root: string, folder: string, name: string)
    requires root != [] && root[|root| - 1] != '/'
    requires folder != [] && '/' !in folder && '/' !in name
    ensures Basename(Join(Join(root, folder), name)) == name
    ensures Basename(Dirname(Join(Join(root, folder), name))) == folder
  {
    var dir := Join(root, folder);
    assert folder[0] in folder && folder[|folder| - 1] in folder;
    assert dir == root + "/" + folder;
    SplitPath(dir, name);
    SplitPath(root, folder);
  }

  lemma OrUnknownSome(v: string)
    requires v != []
    ensures OrUnknown(Some(v)) == v
  {
  }

  // ---------------------------------------------------------------------
  // iter_filings
  // ---------------------------------------------------------------------

  /** `DERIVED_SUFFIXES`; `SKIP_SUBSTRINGS` holds the same four strings. */
  const DerivedSuffixes: seq<string> := ["_ai_sentences.txt", "_classified.txt", "_scored.txt", "_scored_ai_sentences.txt"]

  /** `any(name.endswith(suf) for suf in sufs)`. */
  predicate EndsWithAny(name: string, sufs: seq<string>)
  {
    exists k :: 0 <= k < |sufs| && EndsWith(name, sufs[k])
  }

  /** `any(sub in name for sub in subs)`. */
  predicate ContainsAny(name: string, subs: seq<string>)
  {
    exists k :: 0 <= k < |subs| && Contains(name, subs[k])
  }

  /** A name that ends with a string contains it, so the suffix test adds
      nothing to the substring test. */
  lemma EndsWithAnyContains(name: string, sufs: seq<string>)
    requires EndsWithAny(name, sufs)
    ensures ContainsAny(name, sufs)
  {
    var k :| 0 <= k < |sufs| && EndsWith(name, sufs[k]);
    assert OccursAt(name, |name| - |sufs[k]|, sufs[k]);
  }

  /** The file-name test of `iter_filings`: a `.txt` name that is not a
      derived output and, when the form set is given and non-empty, whose
      parsed form is in it. */
  predicate YieldsFile(name: string, forms: Option<set<string>>)
  {
    && EndsWith(name, ".txt")
    && !EndsWithAny(name, DerivedSuffixes)
    && !ContainsAny(name, DerivedSuffixes)
    && (forms.None? || forms.value == {}
        || (ParseFormFromFilename(name).Some? && ParseFormFromFilename(name).value in forms.value))
  }

  /** A directory: the names `os.listdir` gives for the base, which paths are
      folders, and for each folder the (folder, file name) pairs `os.walk`
      reaches, in walk order. */
  datatype Tree = Tree(listing: seq<string>, isDir: string -> bool, walk: string -> seq<(string, string)>)

  /** The folder test of `iter_filings`. */
  predicate ScansFolder(tree: Tree, base: string, year: string, years: Option<set<string>>)
  {
    (years.None? || year in years.value) && tree.isDir(Join(base, year)) && LooksLikeYear(year)
  }

  /** The paths yielded for one folder's walk. */
  function FolderFilings(entries: seq<(string, string)>, keep: string -> bool): seq<string>
  {
    if entries == [] then []
    else
      var e := entries[|entries| - 1];
      FolderFilings(entries[..|entries| - 1], keep) + if keep(e.1) then [Join(e.0, e.1)] else []
  }

  /** The paths yielded over the given top-level names, in order. */
  function FilingsIn(tree: Tree, base: string, names: seq<string>, scan: string -> bool, keep: string -> bool): seq<string>
  {
    if names == [] then []
    else
      var y := names[|names| - 1];
      FilingsIn(tree, base, names[..|names| - 1], scan, keep)
        + if scan(y) then FolderFilings(tree.walk(Join(base, y)), keep) else []
  }

  /** `iter_filings(base_dir, include_forms, include_years)`: year folders in
      sorted order, each walked for the files that pass. The older copy has
      no year set: it is this function with `years == None`. */
  function IterFilings(tree: Tree, base: string, forms: Option<set<string>>, years: Option<set<string>>): seq<string>
  {
    FilingsIn(tree, base, Ordering.SortStrings(tree.listing),
              y => ScansFolder(tree, base, y, years), n => YieldsFile(n, forms))
  }

  /** One folder yields exactly the joined paths of the names that pass. */
  lemma {:induction false} FolderFilingsMembers(entries: seq<(string, string)>, keep: string -> bool)
    ensures forall p :: p in FolderFilings(entries, keep) <==>
      exists k :: 0 <= k < |entries| && keep(entries[k].1) && p == Join(entries[k].0, entries[k].1)
  {
    if entries != [] {
      var n := |entries| - 1;
      FolderFilingsMembers(entries[..n], keep);
      assert forall k :: 0 <= k < n ==> entries[..n][k] == entries[k];
    }
  }

  /** The walk yields exactly the files of the folders that pass. */
  lemma {:induction false} FilingsInMembers(tree: Tree, base: string, names: seq<string>, scan: string -> bool, keep: string -> bool)
    ensures forall p :: p in FilingsIn(tree, base, names, scan, keep) <==>
      exists y :: y in names && scan(y) && p in FolderFilings(tree.walk(Join(base, y)), keep)
  {
    if names != [] {
      var n := |names| - 1;
      FilingsInMembers(tree, base, names[..n], scan, keep);
      assert names == names[..n] + [names[n]];
    }
  }

  /** `iter_filings` yields a path exactly when it is a passing file of a
      passing year folder listed under the base. */
  lemma IterFilingsMembers(tree: Tree, base: string, forms: Option<set<string>>, years: Option<set<string>>, p: string)
    ensures p in IterFilings(tree, base, forms, years) <==>
      exists y :: y in tree.listing && ScansFolder(tree, base, y, years)
                  && p in FolderFilings(tree.walk(Join(base, y)), n => YieldsFile(n, forms))
  {
    Ordering.SortStringsCorrect(tree.listing, tree.listing);
    var sorted := Ordering.SortStrings(tree.listing);
    assert forall y :: y in sorted <==> y in tree.listing by {
      forall y ensures y in sorted <==> y in tree.listing {
        assert y in sorted <==> y in multiset(sorted);
      }
    }
    FilingsInMembers(tree, base, sorted, y => ScansFolder(tree, base, y, years), n => YieldsFile(n, forms));
  }

  /** A present but empty year set (`--years ,`) scans nothing. */
  lemma EmptyYearSetScansNothing(tree: Tree, base: string, forms: Option<set<string>>)
    ensures IterFilings(tree, base, forms, Some({})) == []
  {
    var r := IterFilings(tree, base, forms, Some({}));
    if r != [] {
      IterFilingsMembers(tree, base, forms, Some({}), r[0]);
    }
  }

  /** The same walk with two tests that agree on every name. */
  lemma {:induction false} FilingsInSameTest(tree: Tree, base: string, names: seq<string>, scan: string -> bool,
                                             keep1: string -> bool, keep2: string -> bool)
    requires forall n :: keep1(n) == keep2(n)
    ensures FilingsIn(tree, base, names, scan, keep1) == FilingsIn(tree, base, names, scan, keep2)
  {
    if names != [] {
      FilingsInSameTest(tree, base, names[..|names| - 1], scan, keep1, keep2);
      var y := names[|names| - 1];
      FolderFilingsSameTest(tree.walk(Join(base, y)), keep1, keep2);
    }
  }

  lemma {:induction false} FolderFilingsSameTest(entries: seq<(string, string)>, keep1: string -> bool, keep2: string -> bool)
    requires forall n :: keep1(n) == keep2(n)
    ensures FolderFilings(entries, keep1) == FolderFilings(entries, keep2)
  {
    if entries != [] {
      FolderFilingsSameTest(entries[..|entries| - 1], keep1, keep2);
    }
  }

  /** An empty form set is falsy in Python, so it filters nothing: the walk
      is the one with no form filter. */
  lemma EmptyFormSetFiltersNothing(tree: Tree, base: string, years: Option<set<string>>)
    ensures IterFilings(tree, base, Some({}), years) == IterFilings(tree, base, None, years)
  {
    FilingsInSameTest(tree, base, Ordering.SortStrings(tree.listing), y => ScansFolder(tree, base, y, years),
                      n => YieldsFile(n, Some({})), n => YieldsFile(n, None));
  }

  // ---------------------------------------------------------------------
  // process_file
  // ---------------------------------------------------------------------

  /** Python's `path[:-4]`. */
  function DropExt(path: string): string
  {
    if |path| >= 4 then path[..|path| - 4] else []
  }

  const SentencesSuffix := "_ai_sentences.txt"

  /** `path[:-4] + "_ai_sentences.txt"`. */
  function SentencesPath(path: string): string
  {
    DropExt(path) + SentencesSuffix
  }

  /** The output's file name is a derived name, so a later walk never
      yields it again. */
  lemma OutputNotRescanned(path: string, forms: Option<set<string>>)
    ensures EndsWithAny(Basename(SentencesPath(path)), DerivedSuffixes)
    ensures !YieldsFile(Basename(SentencesPath(path)), forms)
  {
    assert '/' !in SentencesSuffix;
    BasenameKeepsSuffix(DropExt(path), SentencesSuffix);
    assert EndsWith(Basename(SentencesPath(path)), DerivedSuffixes[0]);
  }

  /** Appending the same suffix keeps different strings different. */
  lemma SuffixCancel(a: string, b: string, suffix: string)
    requires a != b
    ensures a + suffix != b + suffix
  {
    if |a| == |b| {
      assert (a + suffix)[..|a|] == a;
      assert (b + suffix)[..|b|] == b;
    }
  }

  /** Two different `.txt` filings never share an output file. */
  lemma DistinctOutputs(p: string, q: string)
    requires EndsWith(p, ".txt") && EndsWith(q, ".txt") && p != q
    ensures SentencesPath(p) != SentencesPath(q)
  {
    assert p == DropExt(p) + ".txt" && q == DropExt(q) + ".txt";
    SuffixCancel(DropExt(p), DropExt(q), SentencesSuffix);
  }

  /** `"\n".join(lines)`. */
  function JoinLines(lines: seq<string>): string
  {
    if lines == [] then []
    else if |lines| == 1 then lines[0]
    else JoinLines(lines[..|lines| - 1]) + "\n" + lines[|lines| - 1]
  }

  datatype Status = Ok | SkippedExists | Empty | Error

  /** The status, the number of sentences written, the output path, and the
      text written to it (None when nothing is written). */
  datatype Outcome = Outcome(status: Status, count: nat, outPath: string, written: Option<string>)

  /** The file system as this step sees it: which paths exist, what a read
      gives (None when it raises), and whether a path can be written. */
  datatype Disk = Disk(present: string -> bool, read: string -> Option<string>, writable: string -> bool)

  /** `process_file(path, keywords, force)`. `extract` is segmentation, both
      fragment merges and the keyword filter, None when one of them raises. */
  function ProcessFile(path: string, force: bool, disk: Disk, extract: string -> Option<seq<string>>): (o: Outcome)
    ensures o.outPath == SentencesPath(path)
    ensures o.status != Ok ==> o.count == 0
    ensures o.written.Some? ==> o.status == Ok || o.status == Empty
  {
    var out := SentencesPath(path);
    if EndsWithAny(Basename(path), DerivedSuffixes) then Outcome(Empty, 0, out, None)
    else if !force && disk.present(out) then Outcome(SkippedExists, 0, out, None)
    else match disk.read(path)
      case None => Outcome(Error, 0, out, None)
      case Some(text) =>
        if Strip(text) == [] then
          if disk.writable(out) then Outcome(Empty, 0, out, Some([])) else Outcome(Error, 0, out, None)
        else match extract(text)
          case None => Outcome(Error, 0, out, None)
          case Some(ai) =>
            if disk.writable(out) then Outcome(Ok, |ai|, out, Some(JoinLines(ai))) else Outcome(Error, 0, out, None)
  }

  /** A derived input is answered "empty" without reading or writing: the
      outcome does not depend on the disk or the extraction at all. */
  lemma DerivedNotRead(path: string, force: bool, d1: Disk, d2: Disk, e1: string -> Option<seq<string>>, e2: string -> Option<seq<string>>)
    requires EndsWithAny(Basename(path), DerivedSuffixes)
    ensures ProcessFile(path, force, d1, e1) == ProcessFile(path, force, d2, e2)
    ensures ProcessFile(path, force, d1, e1) == Outcome(Empty, 0, SentencesPath(path), None)
  {
  }

  /** Without `force`, an existing output is left alone: the outcome depends
      on nothing but the output's presence. */
  lemma ExistingNotRead(path: string, d1: Disk, d2: Disk, e1: string -> Option<seq<string>>, e2: string -> Option<seq<string>>)
    requires !EndsWithAny(Basename(path), DerivedSuffixes)
    requires d1.present(SentencesPath(path)) && d2.present(SentencesPath(path))
    ensures ProcessFile(path, false, d1, e1) == ProcessFile(path, false, d2, e2)
    ensures ProcessFile(path, false, d1, e1) == Outcome(SkippedExists, 0, SentencesPath(path), None)
  {
  }

  /** The disk after a file has been written. */
  function AfterWrite(disk: Disk, out: string): Disk
  {
    Disk(p => p == out || disk.present(p), disk.read, disk.writable)
  }

  /** A run that wrote an output is not repeated by a later run without
      `force`: that run finds the output and skips the filing. */
  lemma RerunSkips(path: string, force: bool, disk: Disk, e1: string -> Option<seq<string>>, e2: string -> Option<seq<string>>)
    requires ProcessFile(path, force, disk, e1).written.Some?
    ensures ProcessFile(path, false, AfterWrite(disk, SentencesPath(path)), e2).status == SkippedExists
  {
  }

  /** The older `process_file`: no derived-name check and a lenient read
      whose failure raises (Failure); `extract` is segmentation plus the
      keyword filter, which cannot fail. */
  function ScriptProcessFile(path: string, force: bool, disk: Disk, extract: string -> seq<string>): (r: Result<Outcome>)
    ensures r.Success? ==> r.value.status != Error && r.value.outPath == SentencesPath(path)
    ensures r.Failure? <==> (force || !disk.present(SentencesPath(path)))
                            && (disk.read(path).None? || !disk.writable(SentencesPath(path)))
  {
    var out := SentencesPath(path);
    if !force && disk.present(out) then Success(Outcome(SkippedExists, 0, out, None))
    else match disk.read(path)
      case None => Failure("OSError")
      case Some(text) =>
        if Strip(text) == [] then
          if disk.writable(out) then Success(Outcome(Empty, 0, out, Some([]))) else Failure("OSError")
        else
          var ai := extract(text);
          if disk.writable(out) then Success(Outcome(Ok, |ai|, out, Some(JoinLines(ai)))) else Failure("OSError")
  }

  /** `filter_ai_sentences(segment_sentences(text), keywords)` as the older
      script composes it. */
  function ScriptExtract(keywords: seq<string>, text: string): seq<string>
  {
    SentenceFilter.Filtered(SentenceFilter.KeywordRegex(keywords), SentenceFilter.SegmentSentences(text))
  }

  /** Where neither version raises and the name is not derived, the older
      `process_file` is the newer one run with the same extraction. */
  lemma VersionsAgree(path: string, force: bool, disk: Disk, extract: string -> seq<string>)
    requires !EndsWithAny(Basename(path), DerivedSuffixes)
    requires disk.read(path).Some? && disk.writable(SentencesPath(path))
    ensures ScriptProcessFile(path, force, disk, extract) == Success(ProcessFile(path, force, disk, t => Some(extract(t))))
  {
  }

  /** `max(0, x)`. */
  function Clamp(x: int): nat
  {
    if x < 0 then 0 else x
  }

  /** The three fragment counters of `process_file`: merged by the page pass,
      by the sentence pass, and in total. */
  function MergeCounters(segmented: nat, afterPage: nat, afterSentence: nat): (r: (nat, nat, nat))
    ensures r.2 <= r.0 + r.1
    ensures afterSentence <= afterPage <= segmented ==> r.2 == r.0 + r.1
    ensures r.2 == 0 <==> segmented <= afterSentence
  {
    (Clamp(segmented - afterPage), Clamp(afterPage - afterSentence), Clamp(segmented - afterSentence))
  }

  // ---------------------------------------------------------------------
  // --include-forms / --years
  // ---------------------------------------------------------------------

  /** `arg.strip().upper() == "ALL"`. */
  predicate MeansAll(arg: string)
  {
    Upper(Strip(arg)) == "ALL"
  }

  /** A stripped token of a comma-free piece is stripped and comma-free. */
  lemma TokensClean(toks: seq<string>)
    requires forall k :: 0 <= k < |toks| ==> ',' !in toks[k]
    ensures forall tok :: tok in toks ==> Strip(Strip(tok)) == Strip(tok) && ',' !in Strip(tok)
  {
    forall tok | tok in toks
      ensures Strip(Strip(tok)) == Strip(tok) && ',' !in Strip(tok)
    {
      StripStripped(Strip(tok));
      var i := StripShape(tok);
      forall j | 0 <= j < |Strip(tok)| ensures Strip(tok)[j] != ',' {
        assert Strip(tok)[j] == tok[i + j];
      }
    }
  }

  /** The form and year options: "ALL" in any case, with any surrounding
      space, means no filter; anything else is the set of the stripped,
      non-blank comma-separated tokens (possibly empty). */
  function ParseFilter(arg: string): (r: Option<set<string>>)
    ensures r.None? <==> MeansAll(arg)
    ensures r.Some? ==> forall t :: t in r.value ==> t != [] && Strip(t) == t && ',' !in t
  {
    if MeansAll(arg) then None
    else
      var toks := SplitOn(arg, ',');
      TokensClean(toks);
      Some(set tok | tok in toks && Strip(tok) != [] :: Strip(tok))
  }

  /** `",".join(parts)`. */
  function JoinComma(parts: seq<string>): string
    requires parts != []
  {
    if |parts| == 1 then parts[0] else parts[0] + "," + JoinComma(parts[1..])
  }

  /** Splitting a comma-joined list of comma-free parts gives the parts back. */
  lemma {:induction false} SplitJoinComma(parts: seq<string>)
    requires parts != [] && forall k :: 0 <= k < |parts| ==> ',' !in parts[k]
    ensures SplitOn(JoinComma(parts), ',') == parts
  {
    var t := parts[0];
    if |parts| == 1 {
      forall i: nat | i <= |t| ensures !OccursAt(t, i, [',']) {
        if i + 1 <= |t| { assert t[i..i + 1] == [t[i]]; }
      }
    } else {
      var s := JoinComma(parts);
      assert s[..|t|] == t && s[|t|] == ',';
      assert s[|t|..|t| + 1] == [','];
      forall j: nat | j < |t| ensures !OccursAt(s, j, [',']) {
        assert s[j..j + 1] == [t[j]];
      }
      IndexOfIs(s, [','], |t|);
      assert s[|t| + 1..] == JoinComma(parts[1..]);
      SplitJoinComma(parts[1..]);
    }
  }

  /** Round trip: clean tokens written comma-separated parse back to exactly
      their set. */
  lemma FilterRoundTrip(parts: seq<string>)
    requires parts != []
    requires forall k :: 0 <= k < |parts| ==> parts[k] != [] && Strip(parts[k]) == parts[k] && ',' !in parts[k]
    requires !MeansAll(JoinComma(parts))
    ensures ParseFilter(JoinComma(parts)) == Some(set t | t in parts)
  {
    SplitJoinComma(parts);
    CleanTokenSet(parts);
  }

  /** Stripping clean tokens changes none of them and drops none. */
  lemma CleanTokenSet(parts: seq<string>)
    requires forall k :: 0 <= k < |parts| ==> parts[k] != [] && Strip(parts[k]) == parts[k]
    ensures (set tok | tok in parts && Strip(tok) != [] :: Strip(tok)) == set t | t in parts
  {
    var got := set tok | tok in parts && Strip(tok) != [] :: Strip(tok);
    forall t ensures t in got <==> t in parts {
      if t in parts {
        assert Strip(t) == t;
      }
    }
  }

  // ---------------------------------------------------------------------
  // The run over all filings
  // ---------------------------------------------------------------------

  /** `totals`: filings scanned and how each ended. */
  datatype Totals = Totals(seen: nat, wrote: nat, skipped: nat, empty: nat, errors: nat)

  /** One more filing with the given status. */
  function Tally(t: Totals, s: Status): Totals
  {
    match s
    case Ok => t.(seen := t.seen + 1, wrote := t.wrote + 1)
    case SkippedExists => t.(seen := t.seen + 1, skipped := t.skipped + 1)
    case Error => t.(seen := t.seen + 1, errors := t.errors + 1)
    case Empty => t.(seen := t.seen + 1, empty := t.empty + 1)
  }

  /** The loop state: totals, filings per year folder, and `processed`
      (filings written, which `--limit` counts). */
  datatype Run = Run(totals: Totals, perYear: map<string, nat>, processed: nat)

  /** `os.path.basename(os.path.dirname(path))`. */
  function YearFolder(path: string): string
  {
    Basename(Dirname(path))
  }

  /** `args.limit and processed >= args.limit`. */
  predicate Stops(limit: int, processed: nat)
  {
    limit != 0 && processed >= limit
  }

  /** One loop iteration that does not break. */
  function Step(r: Run, p: string, s: Status): Run
  {
    Run(Tally(r.totals, s), Counting.Bump(r.perYear, YearFolder(p)), if s == Ok then r.processed + 1 else r.processed)
  }

  /** The run over `paths`, where `status` gives what `process_file` returns
      for each path. Once the limit is reached the loop breaks: the later
      paths change nothing. It scans a prefix of the paths, all of them
      unless the limit was reached. */
  function RunOver(paths: seq<string>, status: string -> Status, limit: int): (r: Run)
    ensures r.totals.seen <= |paths|
    ensures r.totals.seen == |paths| || Stops(limit, r.processed)
  {
    if paths == [] then Run(Totals(0, 0, 0, 0, 0), map[], 0)
    else
      var r := RunOver(paths[..|paths| - 1], status, limit);
      var p := paths[|paths| - 1];
      if Stops(limit, r.processed) then r else Step(r, p, status(p))
  }

  /** Once stopped, the run stays as it was. */
  lemma {:induction false} StopsForever(paths: seq<string>, status: string -> Status, limit: int, i: nat)
    requires i <= |paths| && Stops(limit, RunOver(paths[..i], status, limit).processed)
    ensures RunOver(paths, status, limit) == RunOver(paths[..i], status, limit)
    decreases |paths| - i
  {
    if i < |paths| {
      assert paths[..i + 1][..i] == paths[..i];
      StopsForever(paths, status, limit, i + 1);
    } else {
      assert paths[..i] == paths;
    }
  }

  /** One more path, when the run has not stopped, is one more step. */
  lemma RunOverStep(paths: seq<string>, status: string -> Status, limit: int, i: nat)
    requires i < |paths| && !Stops(limit, RunOver(paths[..i], status, limit).processed)
    ensures RunOver(paths[..i + 1], status, limit) == Step(RunOver(paths[..i], status, limit), paths[i], status(paths[i]))
  {
    assert paths[..i + 1][..i] == paths[..i];
  }

  /** The loop of `main`, breaking at the limit. */
  method RunExtraction(paths: seq<string>, status: string -> Status, limit: int) returns (r: Run)
    ensures r == RunOver(paths, status, limit)
  {
    var totals := Totals(0, 0, 0, 0, 0);
    var perYear: map<string, nat> := map[];
    var processed: nat := 0;
    for i := 0 to |paths|
      invariant Run(totals, perYear, processed) == RunOver(paths[..i], status, limit)
    {
      if limit != 0 && processed >= limit {
        StopsForever(paths, status, limit, i);
        return Run(totals, perYear, processed);
      }
      ghost var before := Run(totals, perYear, processed);
      var path := paths[i];
      var year := YearFolder(path);
      perYear := Counting.Bump(perYear, year);
      totals := totals.(seen := totals.seen + 1);
      var st := status(path);
      match st {
        case Ok =>
          totals := totals.(wrote := totals.wrote + 1);
          processed := processed + 1;
        case SkippedExists =>
          totals := totals.(skipped := totals.skipped + 1);
        case Error =>
          totals := totals.(errors := totals.errors + 1);
        case Empty =>
          totals := totals.(empty := totals.empty + 1);
      }
      assert totals == Tally(before.totals, st);
      assert processed == if st == Ok then before.processed + 1 else before.processed;
      RunOverStep(paths, status, limit, i);
    }
    assert paths[..|paths|] == paths;
    r := Run(totals, perYear, processed);
  }

  /** The loop run to the end with no limit. */
  function Fold(ps: seq<string>, status: string -> Status): (r: Run)
    ensures r.totals.seen == |ps|
    ensures r.processed == r.totals.wrote
  {
    if ps == [] then Run(Totals(0, 0, 0, 0, 0), map[], 0)
    else
      var p := ps[|ps| - 1];
      Step(Fold(ps[..|ps| - 1], status), p, status(p))
  }

  /** The limited run is the unlimited one over the paths it scanned. */
  lemma {:induction false} RunIsFold(paths: seq<string>, status: string -> Status, limit: int)
    ensures RunOver(paths, status, limit) == Fold(paths[..RunOver(paths, status, limit).totals.seen], status)
  {
    if paths == [] {
    } else {
      var n := |paths| - 1;
      var prev := RunOver(paths[..n], status, limit);
      RunIsFold(paths[..n], status, limit);
      assert paths[..n][..prev.totals.seen] == paths[..prev.totals.seen];
      if !Stops(limit, prev.processed) {
        assert paths[..n + 1] == paths && paths[..n + 1][..n] == paths[..n];
      }
    }
  }

  /** The counter a status increments. */
  function Counter(t: Totals, s: Status): nat
  {
    match s
    case Ok => t.wrote
    case SkippedExists => t.skipped
    case Empty => t.empty
    case Error => t.errors
  }

  /** How many of `ps` have status `s`. */
  function StatusCount(ps: seq<string>, status: string -> Status, s: Status): nat
  {
    if ps == [] then 0
    else StatusCount(ps[..|ps| - 1], status, s) + if status(ps[|ps| - 1]) == s then 1 else 0
  }

  /** Each counter counts the paths with its status. */
  lemma {:induction false} FoldCounts(ps: seq<string>, status: string -> Status, s: Status)
    ensures Counter(Fold(ps, status).totals, s) == StatusCount(ps, status, s)
  {
    if ps != [] {
      FoldCounts(ps[..|ps| - 1], status, s);
    }
  }

  /** The year folder of each path. */
  function Folders(ps: seq<string>): (r: seq<string>)
    ensures |r| == |ps|
  {
    if ps == [] then [] else Folders(ps[..|ps| - 1]) + [YearFolder(ps[|ps| - 1])]
  }

  /** `per_year` is the tally of the paths' folders. */
  lemma {:induction false} FoldPerYear(ps: seq<string>, status: string -> Status)
    ensures Fold(ps, status).perYear == Counting.Tally(Folders(ps))
  {
    if ps != [] {
      var n := |ps| - 1;
      var fs := Folders(ps);
      FoldPerYear(ps[..n], status);
      assert fs[..n] == Folders(ps[..n]) && fs[n] == YearFolder(ps[n]);
    }
  }

  /** The totals count the statuses of exactly the first `seen` paths, every
      scanned path is counted once, and `processed` is the number written. */
  lemma RunTotals(paths: seq<string>, status: string -> Status, limit: int, s: Status)
    ensures var r := RunOver(paths, status, limit);
      && Counter(r.totals, s) == StatusCount(paths[..r.totals.seen], status, s)
      && r.totals.seen == r.totals.wrote + r.totals.skipped + r.totals.empty + r.totals.errors
      && r.processed == r.totals.wrote
  {
    var r := RunOver(paths, status, limit);
    var scanned := paths[..r.totals.seen];
    RunIsFold(paths, status, limit);
    FoldCounts(scanned, status, s);
    FoldSeen(scanned, status);
  }

  /** Every path the fold sees lands in exactly one counter. */
  lemma {:induction false} FoldSeen(ps: seq<string>, status: string -> Status)
    ensures var t := Fold(ps, status).totals; t.seen == t.wrote + t.skipped + t.empty + t.errors
  {
    if ps != [] {
      FoldSeen(ps[..|ps| - 1], status);
    }
  }

  /** `per_year` tallies the folders of the scanned paths, so its counts add
      up to `seen`. */
  lemma RunPerYear(paths: seq<string>, status: string -> Status, limit: int)
    ensures var r := RunOver(paths, status, limit);
      && r.perYear == Counting.Tally(Folders(paths[..r.totals.seen]))
      && Counting.Total(r.perYear) == r.totals.seen
  {
    var r := RunOver(paths, status, limit);
    RunIsFold(paths, status, limit);
    FoldPerYear(paths[..r.totals.seen], status);
    Counting.TallyTotal(Folders(paths[..r.totals.seen]));
  }

  /** No path with a status that never occurs. */
  lemma {:induction false} StatusCountNone(ps: seq<string>, status: string -> Status, s: Status)
    requires forall p :: status(p) != s
    ensures StatusCount(ps, status, s) == 0
  {
    if ps != [] {
      StatusCountNone(ps[..|ps| - 1], status, s);
    }
  }

  /** The older loop keeps no error counter: its `process_file` never returns
      "error", so the run it shares with the newer loop leaves that count at 0. */
  lemma ScriptRunNoErrors(paths: seq<string>, status: string -> Status, limit: int)
    requires forall p :: status(p) != Error
    ensures RunOver(paths, status, limit).totals.errors == 0
  {
    var r := RunOver(paths, status, limit);
    RunTotals(paths, status, limit, Error);
    StatusCountNone(paths[..r.totals.seen], status, Error);
  }

  /** The status the older loop sees for a filing, where `process` gives what
      its `process_file` returns or raises; `Error` stands for a raise. */
  function ScriptStatus(process: string -> Result<Status>): string -> Status
  {
    p => if process(p).Success? then process(p).value else Error
  }

  /** The older `process_file` as the loop consumes it: its status, or the raise. */
  function ScriptStep(force: bool, disk: Disk, extract: string -> seq<string>): (step: string -> Result<Status>)
    ensures forall p :: step(p) != Success(Error)
  {
    p => if ScriptProcessFile(p, force, disk, extract).Success?
      then Success(ScriptProcessFile(p, force, disk, extract).value.status)
      else Failure(ScriptProcessFile(p, force, disk, extract).error)
  }

  /** The run adds up one filing at a time: a prefix scans no more. */
  lemma {:induction false} SeenGrows(paths: seq<string>, status: string -> Status, limit: int, i: nat)
    requires i <= |paths|
    ensures RunOver(paths[..i], status, limit).totals.seen <= RunOver(paths, status, limit).totals.seen
    decreases |paths| - i
  {
    if i < |paths| {
      assert paths[..i + 1][..i] == paths[..i];
      SeenGrows(paths, status, limit, i + 1);
    } else {
      assert paths[..i] == paths;
    }
  }

  /** The loop reaches filing `i` (does not break before it) exactly when
      the run scans it. */
  lemma ScannedIsReached(paths: seq<string>, status: string -> Status, limit: int, i: nat)
    requires i < |paths|
    ensures i < RunOver(paths, status, limit).totals.seen <==> !Stops(limit, RunOver(paths[..i], status, limit).processed)
  {
    if Stops(limit, RunOver(paths[..i], status, limit).processed) {
      StopsForever(paths, status, limit, i);
    } else {
      RunOverStep(paths, status, limit, i);
      SeenGrows(paths, status, limit, i + 1);
    }
  }

  /** The loop of the older `main`, with `process` its `process_file` (as
      `ScriptStep` gives it). It keeps no error counter, and a `process_file`
      that raises ends the script at that filing, so there is no summary: it
      fails exactly when one of the filings the run scans raises, and
      otherwise gives the run, with no errors counted. */
  method ScriptRun(paths: seq<string>, process: string -> Result<Status>, limit: int) returns (r: Result<Run>)
    requires forall p :: process(p) != Success(Error)
    ensures var run := RunOver(paths, ScriptStatus(process), limit);
      r.Failure? <==> exists i :: 0 <= i < run.totals.seen && process(paths[i]).Failure?
    ensures r.Success? ==> r.value == RunOver(paths, ScriptStatus(process), limit)
    ensures r.Success? ==> r.value.totals.errors == 0
  {
    ghost var status := ScriptStatus(process);
    var totals := Totals(0, 0, 0, 0, 0);
    var perYear: map<string, nat> := map[];
    var processed: nat := 0;
    for i := 0 to |paths|
      invariant Run(totals, perYear, processed) == RunOver(paths[..i], status, limit)
      invariant totals.seen == i && totals.errors == 0
      invariant forall j :: 0 <= j < i ==> process(paths[j]).Success?
    {
      if limit != 0 && processed >= limit {
        StopsForever(paths, status, limit, i);
        return Success(Run(totals, perYear, processed));
      }
      ghost var before := Run(totals, perYear, processed);
      var path := paths[i];
      var year := YearFolder(path);
      perYear := Counting.Bump(perYear, year);
      totals := totals.(seen := totals.seen + 1);
      var res := process(path);
      if res.Failure? {
        ScannedIsReached(paths, status, limit, i);
        return Failure(res.error);
      }
      var st := res.value;
      assert st == status(path) && st != Error by { assert process(path) != Success(Error); }
      if st == Ok {
        totals := totals.(wrote := totals.wrote + 1);
        processed := processed + 1;
      } else if st == SkippedExists {
        totals := totals.(skipped := totals.skipped + 1);
      } else {
        totals := totals.(empty := totals.empty + 1);
      }
      assert totals == Tally(before.totals, st);
      assert processed == if st == Ok then before.processed + 1 else before.processed;
      RunOverStep(paths, status, limit, i);
      assert forall j :: 0 <= j < i + 1 ==> process(paths[j]).Success? by {
        assert process(paths[i]).Success?;
      }
    }
    assert paths[..|paths|] == paths;
    r := Success(Run(totals, perYear, processed));
  }

  /** `--limit`: a positive limit bounds the filings written, a negative one
      stops the run before its first filing, and 0 scans everything. */
  lemma {:induction false} RunLimit(paths: seq<string>, status: string -> Status, limit: int)
    ensures limit > 0 ==> RunOver(paths, status, limit).processed <= limit
    ensures limit < 0 ==> RunOver(paths, status, limit).totals.seen == 0
    ensures limit == 0 ==> RunOver(paths, status, limit).totals.seen == |paths|
  {
    if paths != [] {
      RunLimit(paths[..|paths| - 1], status, limit);
    }
  }
}
