/** The index of SEC filings on disk, built from file names alone, as done by
    `index_sec_filings.py` (the current copy under `semantic_ai_washing/` and
    the older one under `scripts/` hold the same code). The directory tree is
    a parameter; writing the CSV and the printed report are not modelled. */
module SecIndex {
  import opened Common
  import opened Text
  import Ordering
  import Counting
  import Aggregate
  import Extract

  // ---------------------------------------------------------------------
  // iter_filing_paths
  // ---------------------------------------------------------------------

  /** The glob `20[12][1-4]`. */
  predicate YearGlob(n: string)
  {
    |n| == 4 && n[0] == '2' && n[1] == '0' && (n[2] == '1' || n[2] == '2') && '1' <= n[3] <= '4'
  }

  /** The value of four digits. */
  lemma Decimal4(s: string)
    requires |s| == 4 && IsDigitString(s)
    ensures DecimalValue(s) == (s[0] as int - '0' as int) * 1000 + (s[1] as int - '0' as int) * 100
                               + (s[2] as int - '0' as int) * 10 + (s[3] as int - '0' as int)
  {
    var a, b, c := s[..1], s[..2], s[..3];
    assert a[..0] == [] && b[..1] == a && c[..2] == b && s[..3] == c;
    assert DecimalValue(a) == s[0] as int - '0' as int;
    assert DecimalValue(b) == DecimalValue(a) * 10 + (s[1] as int - '0' as int);
    assert DecimalValue(c) == DecimalValue(b) * 10 + (s[2] as int - '0' as int);
  }

  /** The year pattern admits 2011 to 2014 as well as 2021 to 2024, and
      nothing else. */
  lemma YearGlobYears(n: string)
    ensures YearGlob(n) <==>
      && |n| == 4 && IsDigitString(n)
      && (2011 <= DecimalValue(n) <= 2014 || 2021 <= DecimalValue(n) <= 2024)
  {
    if |n| == 4 && IsDigitString(n) {
      Decimal4(n);
      assert IsDigit(n[0]) && IsDigit(n[1]) && IsDigit(n[2]) && IsDigit(n[3]);
    }
  }

  /** The glob `QTR[1-4]`. */
  predicate QuarterGlob(n: string)
  {
    |n| == 4 && n[0] == 'Q' && n[1] == 'T' && n[2] == 'R' && '1' <= n[3] <= '4'
  }

  /** A directory tree: the names listed in each directory (in listing
      order), and which paths are directories and which regular files. */
  datatype Tree = Tree(list: string -> seq<string>, isDir: string -> bool, isFile: string -> bool)

  /** The concatenation of `part(n)` over the names, in order. */
  function Gather(names: seq<string>, part: string -> seq<string>): seq<string>
  {
    if names == [] then [] else Gather(names[..|names| - 1], part) + part(names[|names| - 1])
  }

  lemma {:induction false} GatherMembers(names: seq<string>, part: string -> seq<string>)
    ensures forall p :: p in Gather(names, part) <==> exists n :: n in names && p in part(n)
  {
    if names != [] {
      var k := |names| - 1;
      GatherMembers(names[..k], part);
      assert names == names[..k] + [names[k]];
    }
  }

  /** `qdir.glob("*.txt")` keeping regular files. */
  function TxtFiles(tree: Tree, qdir: string): seq<string>
  {
    Gather(tree.list(qdir), n => if EndsWith(n, ".txt") && tree.isFile(Extract.Join(qdir, n)) then [Extract.Join(qdir, n)] else [])
  }

  /** The quarter folders of one year folder, in sorted order. */
  function QuarterFilings(tree: Tree, ydir: string): seq<string>
  {
    Gather(Ordering.SortStrings(tree.list(ydir)),
           q => if QuarterGlob(q) && tree.isDir(Extract.Join(ydir, q)) then TxtFiles(tree, Extract.Join(ydir, q)) else [])
  }

  /** `iter_filing_paths(root)`: year folders in sorted order, then their
      quarter folders in sorted order, then their `.txt` files. */
  function IterFilingPaths(tree: Tree, root: string): seq<string>
  {
    Gather(Ordering.SortStrings(tree.list(root)),
           y => if YearGlob(y) && tree.isDir(Extract.Join(root, y)) then QuarterFilings(tree, Extract.Join(root, y)) else [])
  }

  /** Sorting a listing keeps its names. */
  lemma SortedNames(names: seq<string>)
    ensures forall n :: n in Ordering.SortStrings(names) <==> n in names
  {
    Ordering.SortStringsCorrect(names, names);
    var sorted := Ordering.SortStrings(names);
    forall n ensures n in sorted <==> n in names {
      assert n in sorted <==> n in multiset(sorted);
    }
  }

  /** A quarter folder yields exactly its `.txt` regular files. */
  lemma TxtFilesMembers(tree: Tree, qdir: string, p: string)
    ensures p in TxtFiles(tree, qdir) <==>
      exists n :: n in tree.list(qdir) && EndsWith(n, ".txt") && tree.isFile(Extract.Join(qdir, n)) && p == Extract.Join(qdir, n)
  {
    GatherMembers(tree.list(qdir), n => if EndsWith(n, ".txt") && tree.isFile(Extract.Join(qdir, n)) then [Extract.Join(qdir, n)] else []);
  }

  /** A year folder yields exactly the files of its `QTR[1-4]` folders. */
  lemma QuarterFilingsMembers(tree: Tree, ydir: string, p: string)
    ensures p in QuarterFilings(tree, ydir) <==>
      exists q :: q in tree.list(ydir) && QuarterGlob(q) && tree.isDir(Extract.Join(ydir, q))
                  && p in TxtFiles(tree, Extract.Join(ydir, q))
  {
    SortedNames(tree.list(ydir));
    GatherMembers(Ordering.SortStrings(tree.list(ydir)),
                  q => if QuarterGlob(q) && tree.isDir(Extract.Join(ydir, q)) then TxtFiles(tree, Extract.Join(ydir, q)) else []);
  }

  /** The walk yields exactly the files of the quarter folders of the
      `20[12][1-4]` folders under the root. */
  lemma IterFilingPathsMembers(tree: Tree, root: string, p: string)
    ensures p in IterFilingPaths(tree, root) <==>
      exists y :: y in tree.list(root) && YearGlob(y) && tree.isDir(Extract.Join(root, y))
                  && p in QuarterFilings(tree, Extract.Join(root, y))
  {
    SortedNames(tree.list(root));
    GatherMembers(Ordering.SortStrings(tree.list(root)),
                  y => if YearGlob(y) && tree.isDir(Extract.Join(root, y)) then QuarterFilings(tree, Extract.Join(root, y)) else []);
  }

  // ---------------------------------------------------------------------
  // FNAME_RE and parse_filename
  // ---------------------------------------------------------------------

  /** The four forms a match can give, upper-cased: 10-K, 10-Q, 10-K-A and
      10-Q-A. */
  predicate IsForm(f: string)
  {
    && (|f| == 4 || |f| == 6) && f[0] == '1' && f[1] == '0' && f[2] == '-' && (f[3] == 'K' || f[3] == 'Q')
    && (|f| == 6 ==> f[4] == '-' && f[5] == 'A')
  }

  /** How much of `s` the group `10-[KQ](?:-A)?` takes, ignoring case; 0 when
      it does not match. When "-A" is present the regex cannot fall back to
      the shorter form: the next character would have to be '_', not '-'. */
  function FormLength(s: string): (n: nat)
    ensures n == 0 || n == 4 || n == 6
    ensures n <= |s|
  {
    if |s| >= 4 && s[0] == '1' && s[1] == '0' && s[2] == '-' && (LowerChar(s[3]) == 'k' || LowerChar(s[3]) == 'q') then
      if |s| >= 6 && s[4] == '-' && LowerChar(s[5]) == 'a' then 6 else 4
    else 0
  }

  const MarkerLength := 12

  /** `_edgar_data_` at the start of `t`, ignoring case. */
  predicate MarkerAt(t: string)
  {
    |t| >= MarkerLength && Lower(t[..MarkerLength]) == "_" + Aggregate.EdgarMarker
  }

  predicate NoNewline(t: string)
  {
    forall i :: 0 <= i < |t| ==> t[i] != '\n'
  }

  /** `.*\.txt$`, ignoring case: `.` stops at newlines, and `$` also matches
      just before a final newline. */
  predicate TxtTail(t: string)
  {
    || (NoNewline(t) && EndsWith(Lower(t), ".txt"))
    || (|t| >= 1 && t[|t| - 1] == '\n' && NoNewline(t[..|t| - 1]) && EndsWith(Lower(t[..|t| - 1]), ".txt"))
  }

  /** What a match gives: the CIK digits, `int(date[:4])` and the upper-cased form. */
  datatype Parsed = Parsed(cik: string, year: nat, form: string)

  /** `(?P<cik>\d+)_.*\.txt$`: the CIK group takes the maximal digit run, as
      a shorter run would be followed by a digit and not by '_'. */
  function CikGroup(u: string): Option<string>
  {
    var d := Aggregate.DigitRun(u);
    if d == 0 || d == |u| || u[d] != '_' || !TxtTail(u[d + 1..]) then None else Some(u[..d])
  }

  /** The part after the date and its '_': the form group, the marker, then
      the CIK group and the tail. Gives the CIK and the upper-cased form. */
  function AfterDate(s: string): Option<(string, string)>
  {
    var f := FormLength(s);
    if f == 0 || !MarkerAt(s[f..]) then None
    else match CikGroup(s[f + MarkerLength..])
      case None => None
      case Some(cik) => Some((cik, Upper(s[..f])))
  }

  /** `parse_filename(path)` on the path's name: `FNAME_RE.match`
      (`^(?P<date>\d{8})_` first), then the three groups. */
  function ParseFilename(name: string): (r: Option<Parsed>)
    ensures r.Some? ==> |name| >= 9 && IsDigitString(name[..8]) && name[8] == '_'
  {
    if |name| < 9 || !IsDigitString(name[..8]) || name[8] != '_' then None
    else match AfterDate(name[9..])
      case None => None
      case Some(g) =>
        DatePrefix(name);
        Some(Parsed(g.0, DecimalValue(name[..4]), g.1))
  }

  /** The first four of eight leading digits are digits. */
  lemma DatePrefix(name: string)
    requires |name| >= 8 && IsDigitString(name[..8])
    ensures IsDigitString(name[..4])
  {
    forall i | 0 <= i < 4 ensures IsDigit(name[..4][i]) {
      assert name[..4][i] == name[..8][i];
    }
  }

  /** The upper-cased form group is one of the four forms. */
  lemma FormGroupUpper(s: string)
    requires FormLength(s) > 0
    ensures IsForm(Upper(s[..FormLength(s)]))
  {
  }

  /** Every match gives digits for the CIK, one of the four forms, and the
      four-digit year the aggregation step reads from the same name. */
  lemma ParsedShape(name: string)
    requires ParseFilename(name).Some?
    ensures IsDigitString(ParseFilename(name).value.cik)
    ensures IsForm(ParseFilename(name).value.form)
    ensures ParseFilename(name).value.year == Aggregate.YearOf(name) <= 9999
  {
    var s := name[9..];
    FormGroupUpper(s);
    var u := s[FormLength(s) + MarkerLength..];
    Aggregate.DigitRunDigits(u);
    var date := name[..4];
    DatePrefix(name);
    Decimal4(date);
    assert IsDigit(date[0]) && IsDigit(date[1]) && IsDigit(date[2]) && IsDigit(date[3]);
  }

  /** A filing name in the documented shape. */
  function EdgarName(date: string, form: string, cik: string, rest: string): string
  {
    Extract.FilingName(date, form, cik, rest + ".txt")
  }

  /** A newline-free name ending in ".txt" matches the tail group. */
  lemma TxtTailOf(rest: string)
    requires NoNewline(rest)
    ensures TxtTail(rest + ".txt")
  {
    var t := rest + ".txt";
    assert Lower(t)[|t| - 4..] == ".txt";
  }

  /** The CIK group reads back the digits. */
  lemma CikGroupOf(cik: string, rest: string)
    requires IsDigitString(cik) && NoNewline(rest)
    ensures CikGroup(cik + "_" + rest + ".txt") == Some(cik)
  {
    var u := cik + "_" + rest + ".txt";
    assert u == cik + ("_" + rest + ".txt");
    Aggregate.DigitRunOf(cik, "_" + rest + ".txt");
    assert u[..|cik|] == cik && u[|cik| + 1..] == rest + ".txt";
    TxtTailOf(rest);
  }

  /** The form group, written in any case, matches its whole length. */
  lemma FormGroupOf(form: string, tail: string)
    requires IsForm(Upper(form)) && tail != [] && tail[0] == '_'
    ensures FormLength(form + tail) == |form|
    ensures (form + tail)[..|form|] == form
  {
    var u := Upper(form);
    assert |u| == |form|;
    assert (form + tail)[..|form|] == form;
  }

  /** The lower-case marker reads as itself, and the CIK group follows it. */
  lemma MarkerOf(cik: string, rest: string)
    ensures MarkerAt("_" + Aggregate.EdgarMarker + cik + "_" + rest + ".txt")
    ensures ("_" + Aggregate.EdgarMarker + cik + "_" + rest + ".txt")[MarkerLength..] == cik + "_" + rest + ".txt"
  {
    var t := "_" + Aggregate.EdgarMarker + cik + "_" + rest + ".txt";
    assert t[..MarkerLength] == "_" + Aggregate.EdgarMarker;
  }

  /** The part after the date reads back the CIK and the upper-cased form. */
  lemma AfterDateOf(form: string, cik: string, rest: string)
    requires IsForm(Upper(form)) && IsDigitString(cik) && NoNewline(rest)
    ensures AfterDate(form + "_" + Aggregate.EdgarMarker + cik + "_" + rest + ".txt") == Some((cik, Upper(form)))
  {
    var tail := "_" + Aggregate.EdgarMarker + cik + "_" + rest + ".txt";
    var s := form + "_" + Aggregate.EdgarMarker + cik + "_" + rest + ".txt";
    assert s == form + tail;
    FormGroupOf(form, tail);
    assert s[|form|..] == tail;
    MarkerOf(cik, rest);
    assert s[|form| + MarkerLength..] == tail[MarkerLength..];
    CikGroupOf(cik, rest);
  }

  /** A date, '_' and a part that matches read as that part's groups with
      the date's year. */
  lemma ParseWithDate(date: string, after: string)
    requires |date| == 8 && IsDigitString(date) && AfterDate(after).Some?
    ensures ParseFilename(date + "_" + after)
            == Some(Parsed(AfterDate(after).value.0, DecimalValue(date[..4]), AfterDate(after).value.1))
  {
    var name := date + "_" + after;
    assert name[..8] == date && name[8] == '_' && name[9..] == after;
    assert name[..4] == date[..4];
  }

  /** Round trip: a name built from a date, a form, a CIK and a newline-free
      rest is read back as that CIK, the date's year and the upper-cased form. */
  lemma ParseEdgarName(date: string, form: string, cik: string, rest: string)
    requires |date| == 8 && IsDigitString(date)
    requires IsForm(Upper(form)) && IsDigitString(cik) && NoNewline(rest)
    ensures ParseFilename(EdgarName(date, form, cik, rest)) == Some(Parsed(cik, DecimalValue(date[..4]), Upper(form)))
  {
    var after := form + "_" + Aggregate.EdgarMarker + cik + "_" + rest + ".txt";
    assert EdgarName(date, form, cik, rest) == date + "_" + after;
    AfterDateOf(form, cik, rest);
    ParseWithDate(date, after);
  }

  /** The form group's characters are never '_'. */
  lemma FormGroupNoUnderscore(s: string)
    ensures forall i :: 0 <= i < FormLength(s) ==> s[i] != '_'
  {
  }

  /** Marker at `t` starts with '_'. */
  lemma MarkerStartsWithUnderscore(t: string)
    requires MarkerAt(t)
    ensures t[0] == '_'
  {
    assert Lower(t[..MarkerLength])[0] == '_';
  }

  /** When the form group and the marker match on `form + tail`, with `tail`
      starting at the '_' after the form, the group is the whole form. */
  lemma FormGroupIsForm(form: string, tail: string)
    requires '_' !in form && tail != [] && tail[0] == '_'
    requires AfterDate(form + tail).Some?
    ensures IsForm(Upper(form))
  {
    var s := form + tail;
    var f := FormLength(s);
    MarkerStartsWithUnderscore(s[f..]);
    FormGroupNoUnderscore(s);
    forall k | 0 <= k < |form| ensures s[k] != '_' {
      assert s[k] == form[k];
    }
    assert s[|form|] == '_';
    assert s[..f] == form;
    FormGroupUpper(s);
  }

  /** A match means the part after the date matches. */
  lemma MatchAfterDate(name: string)
    requires ParseFilename(name).Some?
    ensures AfterDate(name[9..]).Some?
  {
  }

  /** A name of the documented shape is indexed exactly when its form,
      upper-cased, is one of the four: other forms (10-KT, 8-K, ...) are
      left out of the index. */
  lemma FormAccepted(date: string, form: string, cik: string, rest: string)
    requires |date| == 8 && IsDigitString(date)
    requires '_' !in form && IsDigitString(cik) && NoNewline(rest)
    ensures ParseFilename(EdgarName(date, form, cik, rest)).Some? <==> IsForm(Upper(form))
  {
    var name := EdgarName(date, form, cik, rest);
    var tail := "_" + Aggregate.EdgarMarker + cik + "_" + rest + ".txt";
    assert name == date + "_" + (form + tail);
    assert name[9..] == form + tail;
    if IsForm(Upper(form)) {
      ParseEdgarName(date, form, cik, rest);
    }
    if ParseFilename(name).Some? {
      MatchAfterDate(name);
      FormGroupIsForm(form, tail);
    }
  }

  /** The letter at `i` makes the name contain a letter. */
  lemma {:induction false} HasLetterAt(s: string, i: nat)
    requires i < |s| && IsLetter(s[i])
    ensures Extract.HasLetter(s)
  {
    if i > 0 {
      HasLetterAt(s[1..], i - 1);
    }
  }

  /** The four forms meet what the other filename parsers need, and are
      their own upper case. */
  lemma FormsAreUsual(form: string)
    requires IsForm(form)
    ensures form != [] && '_' !in form && '/' !in form && 'e' !in form && Extract.HasLetter(form)
    ensures Upper(form) == form
  {
    HasLetterAt(form, 3);
  }

  /** The index and the extraction step read the same form and CIK from a
      filing name. */
  lemma IndexAgreesWithExtract(date: string, form: string, cik: string, rest: string)
    requires |date| == 8 && IsDigitString(date)
    requires IsForm(form) && IsDigitString(cik) && NoNewline(rest) && '/' !in rest
    ensures Extract.ParseFormFromFilename(EdgarName(date, form, cik, rest)) == Some(form)
    ensures Extract.ParseCikFromFilename(EdgarName(date, form, cik, rest)) == Some(cik)
    ensures ParseFilename(EdgarName(date, form, cik, rest)) == Some(Parsed(cik, DecimalValue(date[..4]), form))
  {
    FormsAreUsual(form);
    assert '/' !in rest + ".txt";
    var y := Extract.ParsedFilingName(date, form, cik, rest + ".txt");
    ParseEdgarName(date, form, cik, rest);
  }

  // ---------------------------------------------------------------------
  // main: the index rows and the per-year counts
  // ---------------------------------------------------------------------

  /** One CSV row: cik, year, form, filename, path. */
  datatype Row = Row(cik: string, year: nat, form: string, filename: string, path: string)

  /** The rows for the paths whose names match, in walk order. */
  function IndexRows(paths: seq<string>): seq<Row>
  {
    if paths == [] then []
    else
      var p := paths[|paths| - 1];
      IndexRows(paths[..|paths| - 1]) +
        match ParseFilename(Basename(p))
        case None => []
        case Some(m) => [Row(m.cik, m.year, m.form, Basename(p), p)]
  }

  /** How many of the paths have a matching name. */
  function MatchCount(paths: seq<string>): nat
  {
    if paths == [] then 0
    else MatchCount(paths[..|paths| - 1]) + if ParseFilename(Basename(paths[|paths| - 1])).Some? then 1 else 0
  }

  /** The loop of `main`: every path counts towards `total`, every matching
      one adds a row and counts towards `matched`. */
  method IndexFilings(paths: seq<string>) returns (total: nat, matched: nat, rows: seq<Row>)
    ensures total == |paths|
    ensures rows == IndexRows(paths)
    ensures matched == |rows|
  {
    total, matched, rows := 0, 0, [];
    for i := 0 to |paths|
      invariant total == i
      invariant rows == IndexRows(paths[..i])
      invariant matched == |rows|
    {
      var p := paths[i];
      total := total + 1;
      var parsed := ParseFilename(Basename(p));
      assert paths[..i + 1][..i] == paths[..i];
      if parsed.None? {
        continue;
      }
      var m := parsed.value;
      rows := rows + [Row(m.cik, m.year, m.form, Basename(p), p)];
      matched := matched + 1;
    }
    assert paths[..|paths|] == paths;
  }

  /** One row per matching path, so never more rows than paths. */
  lemma {:induction false} IndexRowsCount(paths: seq<string>)
    ensures |IndexRows(paths)| == MatchCount(paths) <= |paths|
  {
    if paths != [] {
      IndexRowsCount(paths[..|paths| - 1]);
    }
  }

  /** Each row is a walked path whose name parses to the row's fields. */
  lemma {:induction false} IndexRowsFaithful(paths: seq<string>)
    ensures forall r :: r in IndexRows(paths) ==>
      && r.path in paths && r.filename == Basename(r.path)
      && ParseFilename(r.filename) == Some(Parsed(r.cik, r.year, r.form))
  {
    if paths != [] {
      var k := |paths| - 1;
      IndexRowsFaithful(paths[..k]);
      assert forall p :: p in paths[..k] ==> p in paths;
    }
  }

  /** The year of each row. */
  function RowYears(rows: seq<Row>): (r: seq<nat>)
    ensures |r| == |rows|
  {
    if rows == [] then [] else RowYears(rows[..|rows| - 1]) + [rows[|rows| - 1].year]
  }

  /** `by_year[r["year"]] = by_year.get(r["year"], 0) + 1` over the rows. */
  method CountByYear(rows: seq<Row>) returns (byYear: map<nat, nat>)
    ensures byYear == Counting.Tally(RowYears(rows))
  {
    byYear := map[];
    for i := 0 to |rows|
      invariant byYear == Counting.Tally(RowYears(rows[..i]))
    {
      var y := rows[i].year;
      byYear := Counting.Bump(byYear, y);
      assert rows[..i + 1][..i] == rows[..i];
      assert RowYears(rows[..i + 1]) == RowYears(rows[..i]) + [y];
    }
    assert rows[..|rows|] == rows;
  }

  /** The per-year counts add up to the number of rows, and each is the
      number of rows of its year. */
  lemma ByYearCounts(rows: seq<Row>, y: nat)
    ensures Counting.Total(Counting.Tally(RowYears(rows))) == |rows|
    ensures y in Counting.Tally(RowYears(rows)) ==> Counting.Tally(RowYears(rows))[y] == Counting.Occurrences(RowYears(rows), y)
  {
    Counting.TallyTotal(RowYears(rows));
    Counting.TallyCounts(RowYears(rows), y);
  }
}
