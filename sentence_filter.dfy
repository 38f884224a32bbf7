/** Keyword loading, regex sentence segmentation and keyword filtering of
    `core/sentence_filter.py`. Reading the keyword file is a parameter (whether
    the path exists, and its lines); the spaCy segmenter is not modelled. */
module SentenceFilter {
  import opened Common
  import opened Text
  import Ordering

  // ---------------------------------------------------------------------
  // load_keywords
  // ---------------------------------------------------------------------

  /** `raw.split("#", 1)[0]`: the text before the first '#'. */
  function BeforeHash(raw: string): (r: string)
    ensures StartsWith(raw, r) && '#' !in r
    ensures |r| < |raw| ==> raw[|r|] == '#'
  {
    match IndexOf(raw, "#")
    case None =>
      assert forall i :: 0 <= i < |raw| ==> raw[i] != '#' by {
        forall i | 0 <= i < |raw| ensures raw[i] != '#' { assert !OccursAt(raw, i, "#"); }
      }
      raw
    case Some(k) =>
      assert forall i :: 0 <= i < k ==> raw[..k][i] != '#' by {
        forall i | 0 <= i < k ensures raw[..k][i] != '#' { assert !OccursAt(raw, i, "#"); }
      }
      raw[..k]
  }

  /** Starts and ends with the same quote character (one character counts). */
  predicate Quoted(line: string)
  {
    line != [] && ((line[0] == '"' && line[|line| - 1] == '"') || (line[0] == '\'' && line[|line| - 1] == '\''))
  }

  /** The keyword one line of the file contributes, if any: comment dropped,
      stripped, one pair of outer quotes removed, lower-cased. */
  function KeywordOf(raw: string): (r: Option<string>)
    ensures r.None? <==> Strip(BeforeHash(raw)) == []
    ensures r.Some? ==> forall i :: 0 <= i < |r.value| ==> !IsUpperLetter(r.value[i])
    ensures r.Some? && !Quoted(Strip(BeforeHash(raw))) ==> |r.value| == |Strip(BeforeHash(raw))|
  {
    var line := Strip(BeforeHash(raw));
    if line == [] then None
    else
      var unquoted := if Quoted(line) then (if |line| >= 2 then Strip(line[1..|line| - 1]) else []) else line;
      Some(Lower(unquoted))
  }

  /** The keyword's value: an unquoted line is kept whole and lower-cased, and
      a double-quoted phrase without a '#' loses its quotes and surrounding blanks. */
  lemma KeywordValue(raw: string, w: string)
    ensures Strip(BeforeHash(raw)) != [] && !Quoted(Strip(BeforeHash(raw))) ==>
      KeywordOf(raw) == Some(Lower(Strip(BeforeHash(raw))))
    ensures '#' !in w ==> KeywordOf("\"" + w + "\"") == Some(Lower(Strip(w)))
  {
    if '#' !in w {
      var q := "\"" + w + "\"";
      assert '#' !in q by {
        forall i | 0 <= i < |q| ensures q[i] != '#' {
          if 0 < i < |q| - 1 { assert q[i] == w[i - 1]; }
        }
      }
      assert BeforeHash(q) == q;
      StripStripped(q);
      assert Quoted(q);
      assert q[1..|q| - 1] == w;
    }
  }

  /** A line holding only a quote pair (with a comment after it) gives the empty keyword. */
  lemma QuotePairGivesEmpty()
    ensures KeywordOf("\"\"") == Some([])
  {
    assert Strip(BeforeHash("\"\"")) == "\"\"" by {
      assert BeforeHash("\"\"") == "\"\"";
      StripStripped("\"\"");
    }
    assert Strip("\"\""[1..1]) == [];
  }

  /** Everything from the first '#' on is a comment, whatever it holds. */
  lemma CommentDropped(x: string, comment: string)
    requires '#' !in x
    ensures BeforeHash(x + "#" + comment) == x
  {
    var raw := x + "#" + comment;
    assert OccursAt(raw, |x|, "#") by { assert raw[|x|..|x| + 1] == "#"; }
    var k := IndexOf(raw, "#").value;
    assert raw[k..k + 1] == "#";
    assert raw[k] == '#';
    assert raw[..|x|] == x;
  }

  /** The comment is cut before the quotes are looked at. */
  lemma QuotePairBeforeComment()
    ensures KeywordOf("''# note") == Some([])
  {
    CommentDropped("''", " note");
    assert "''" + "#" + " note" == "''# note";
    StripStripped("''");
    assert Strip("''"[1..1]) == [];
  }

  /** `items`: the keyword of every line that has one, in file order. */
  function KeywordItems(lines: seq<string>): seq<string>
  {
    if lines == [] then []
    else
      KeywordItems(lines[..|lines| - 1])
      + match KeywordOf(lines[|lines| - 1]) case Some(k) => [k] case None => []
  }

  lemma KeywordItemsSnoc(lines: seq<string>, i: nat)
    requires i < |lines|
    ensures KeywordItems(lines[..i + 1])
      == KeywordItems(lines[..i]) + match KeywordOf(lines[i]) case Some(k) => [k] case None => []
  {
    assert lines[..i + 1][..i] == lines[..i];
  }

  /** `load_keywords(path)`: `[]` for a missing file; otherwise the keywords
      of its lines, de-duplicated keeping the first occurrence. */
  method LoadKeywords(fileExists: bool, lines: seq<string>) returns (out: seq<string>)
    ensures !fileExists ==> out == []
    ensures fileExists ==> out == Ordering.DedupeBy(KeywordItems(lines), Id)
  {
    if !fileExists {
      return [];
    }
    var items: seq<string> := [];
    for i := 0 to |lines|
      invariant items == KeywordItems(lines[..i])
    {
      KeywordItemsSnoc(lines, i);
      match KeywordOf(lines[i]) {
        case Some(k) => items := items + [k];
        case None =>
      }
    }
    assert lines[..|lines|] == lines;
    out := DedupeKeywords(items);
  }

  /** The `seen`-set loop of `load_keywords`: first occurrences, in order. */
  method DedupeKeywords(items: seq<string>) returns (out: seq<string>)
    ensures out == Ordering.DedupeBy(items, Id)
  {
    var seen: set<string> := {};
    out := [];
    for i := 0 to |items|
      invariant out == Ordering.DedupeBy(items[..i], Id)
      invariant seen == Ordering.KeysOf(out, Id)
    {
      assert items[..i + 1][..i] == items[..i];
      var it := items[i];
      if it !in seen {
        Ordering.KeysOfSnoc(out, it, Id);
        seen := seen + {it};
        out := out + [it];
      }
    }
    assert items[..|items|] == items;
  }

  /** The loaded list has no duplicates, keeps file order, and loses no keyword. */
  lemma LoadedKeywordsDistinct(lines: seq<string>)
    ensures var ks := Ordering.DedupeBy(KeywordItems(lines), Id);
      (forall i, j :: 0 <= i < j < |ks| ==> ks[i] != ks[j])
      && Ordering.IsSubsequence(ks, KeywordItems(lines))
      && (forall k :: k in KeywordItems(lines) <==> k in ks)
  {
    var items := KeywordItems(lines);
    var ks := Ordering.DedupeBy(items, Id);
    Ordering.DedupeByDistinct(items, Id);
    Ordering.DedupeBySubsequence(items, Id);
    Ordering.DedupeByKeys(items, Id);
    IdKeys(items);
    IdKeys(ks);
  }

  lemma IdKeys(xs: seq<string>)
    ensures forall k :: k in xs <==> k in Ordering.KeysOf(xs, Id)
  {
    forall k | k in xs ensures k in Ordering.KeysOf(xs, Id) {
      var i :| 0 <= i < |xs| && xs[i] == k;
      assert Id(xs[i]) in Ordering.KeysOf(xs, Id);
    }
  }

  // ---------------------------------------------------------------------
  // segment_sentences (regex fallback)
  // ---------------------------------------------------------------------

  function SpaceFor(c: char): char
  {
    if c == '\U{A0}' || c == '\t' then ' ' else c
  }

  /** `text.replace("\u00A0", " ").replace("\t", " ")`. */
  function ReplaceNbspTab(s: string): (r: string)
    ensures |r| == |s| && forall i :: 0 <= i < |r| ==> r[i] != '\U{A0}' && r[i] != '\t'
  {
    seq(|s|, i requires 0 <= i < |s| => SpaceFor(s[i]))
  }

  /** `re.sub(r"[ ]{2,}", " ", text)`: every run of two or more spaces becomes one. */
  function CollapseSpaces(s: string): string
  {
    if s == [] then []
    else if |s| >= 2 && s[0] == ' ' && s[1] == ' ' then CollapseSpaces(s[1..])
    else [s[0]] + CollapseSpaces(s[1..])
  }

  predicate NoDoubleSpace(s: string)
  {
    forall i :: 0 <= i < |s| - 1 ==> !(s[i] == ' ' && s[i + 1] == ' ')
  }

  lemma {:induction false} CollapseSpacesShape(s: string)
    ensures CollapseSpaces(s) == [] <==> s == []
    ensures s != [] ==> CollapseSpaces(s)[0] == s[0]
    ensures NoDoubleSpace(CollapseSpaces(s))
    ensures forall i :: 0 <= i < |CollapseSpaces(s)| ==> CollapseSpaces(s)[i] in s
    decreases |s|
  {
    if s != [] {
      var t := CollapseSpaces(s[1..]);
      CollapseSpacesShape(s[1..]);
      forall i | 0 <= i < |t| ensures t[i] in s { assert t[i] in s[1..]; }
      if !(|s| >= 2 && s[0] == ' ' && s[1] == ' ') {
        var r := [s[0]] + t;
        forall i | 0 <= i < |r| - 1 ensures !(r[i] == ' ' && r[i + 1] == ' ') {
          if i > 0 { assert r[i] == t[i - 1] && r[i + 1] == t[i]; }
        }
      }
    }
  }

  /** Collapsing spaces never loses a visible character. */
  lemma {:induction false} CollapseSpacesNonSpace(s: string)
    ensures NonSpace(CollapseSpaces(s)) == NonSpace(s)
    decreases |s|
  {
    if s != [] {
      CollapseSpacesNonSpace(s[1..]);
      if !(|s| >= 2 && s[0] == ' ' && s[1] == ' ') {
        NonSpaceAppend([s[0]], CollapseSpaces(s[1..]));
      }
    }
  }

  lemma {:induction false} ReplaceNbspTabNonSpace(s: string)
    ensures NonSpace(ReplaceNbspTab(s)) == NonSpace(s)
    decreases |s|
  {
    if s != [] {
      ReplaceNbspTabNonSpace(s[1..]);
      assert ReplaceNbspTab(s)[1..] == ReplaceNbspTab(s[1..]);
    }
  }

  predicate SentenceEnd(c: char) { c == '.' || c == '?' || c == '!' }
  predicate SentenceStart(c: char) { IsUpperLetter(c) || c == '(' }

  /** `_SENT_END` matches at `i`: the character before is . ? or !, and the
      whitespace run starting at `i` is followed by an upper-case letter or '('. */
  predicate BreakAt(s: string, i: nat)
  {
    1 <= i < |s| && SentenceEnd(s[i - 1]) && IsSpace(s[i])
    && RunEnd(s, i) < |s| && SentenceStart(s[RunEnd(s, i)])
  }

  /** Where the whitespace run starting at `i` ends. */
  function RunEnd(s: string, i: nat): (j: nat)
    requires i <= |s|
    ensures i <= j <= |s|
  {
    i + LeadingSpace(s[i..])
  }

  /** The leftmost match at or after `from`. */
  function FirstBreak(s: string, from: nat): (r: Option<nat>)
    requires from >= 1
    ensures r.Some? ==> from <= r.value && BreakAt(s, r.value)
    decreases |s| - from
  {
    if from >= |s| then None
    else if BreakAt(s, from) then Some(from)
    else FirstBreak(s, from + 1)
  }

  /** `_SENT_END.split(text)`: the pieces between the matched whitespace runs. */
  function SplitAtBreaks(s: string): (r: seq<string>)
    ensures |r| >= 1
    decreases |s|
  {
    match FirstBreak(s, 1)
    case None => [s]
    case Some(i) => [s[..i]] + SplitAtBreaks(s[RunEnd(s, i)..])
  }

  function Concat(parts: seq<string>): string
  {
    if parts == [] then [] else parts[0] + Concat(parts[1..])
  }

  lemma ConcatCons(p: string, rest: seq<string>)
    ensures Concat([p] + rest) == p + Concat(rest)
  {
    assert ([p] + rest)[1..] == rest;
  }

  /** What a match of `_SENT_END` at `i` says about the text around it. */
  lemma BreakFacts(s: string, i: nat)
    requires BreakAt(s, i)
    ensures var j := RunEnd(s, i);
      i < j < |s| && SentenceEnd(s[i - 1]) && SentenceStart(s[j]) && AllSpace(s[i..j])
  {
    var n := LeadingSpace(s[i..]);
    LeadingSpaceMaximal(s[i..]);
    assert s[i..][..n] == s[i..i + n];
  }

  /** Every piece but the last ends a sentence, and every piece but the first
      starts one. */
  lemma {:induction false} SplitAtBreaksShape(s: string)
    ensures forall k :: 0 <= k < |SplitAtBreaks(s)| - 1 ==>
      SplitAtBreaks(s)[k] != [] && SentenceEnd(SplitAtBreaks(s)[k][|SplitAtBreaks(s)[k]| - 1])
    ensures forall k :: 0 < k < |SplitAtBreaks(s)| ==>
      SplitAtBreaks(s)[k] != [] && SentenceStart(SplitAtBreaks(s)[k][0])
    decreases |s|
  {
    var b := FirstBreak(s, 1);
    if b.Some? {
      var i := b.value;
      BreakFacts(s, i);
      var j := RunEnd(s, i);
      var rest := SplitAtBreaks(s[j..]);
      SplitAtBreaksShape(s[j..]);
      SplitAtBreaksFirst(s[j..]);
      var r := SplitAtBreaks(s);
      assert r == [s[..i]] + rest;
      forall k | 0 <= k < |r| - 1 ensures r[k] != [] && SentenceEnd(r[k][|r[k]| - 1]) {
        if k > 0 { assert r[k] == rest[k - 1]; }
      }
      forall k | 0 < k < |r| ensures r[k] != [] && SentenceStart(r[k][0]) {
        assert r[k] == rest[k - 1];
      }
    }
  }

  /** The first piece is a prefix of the text, empty only for the empty text. */
  lemma {:induction false} SplitAtBreaksFirst(s: string)
    ensures s != [] ==> SplitAtBreaks(s)[0] != [] && SplitAtBreaks(s)[0][0] == s[0]
  {
    var b := FirstBreak(s, 1);
    if b.Some? {
      assert SplitAtBreaks(s)[0] == s[..b.value];
    }
  }

  /** Splitting drops only whitespace: the visible characters of the pieces,
      in order, are those of the text. */
  lemma {:induction false} SplitAtBreaksNonSpace(s: string)
    ensures NonSpace(Concat(SplitAtBreaks(s))) == NonSpace(s)
    decreases |s|
  {
    var b := FirstBreak(s, 1);
    if b.None? {
      SplitAtBreaksNone(s);
    } else {
      var i := b.value;
      BreakFacts(s, i);
      var j := RunEnd(s, i);
      SplitAtBreaksNonSpace(s[j..]);
      SplitAtBreaksSome(s, i);
      SplitPieceNonSpace(s, i, j, SplitAtBreaks(s[j..]));
    }
  }

  lemma SplitAtBreaksNone(s: string)
    requires FirstBreak(s, 1).None?
    ensures NonSpace(Concat(SplitAtBreaks(s))) == NonSpace(s)
  {
    assert SplitAtBreaks(s) == [s];
    ConcatCons(s, []);
    assert s + [] == s;
  }

  lemma SplitAtBreaksSome(s: string, i: nat)
    requires FirstBreak(s, 1) == Some(i)
    ensures SplitAtBreaks(s) == [s[..i]] + SplitAtBreaks(s[RunEnd(s, i)..])
  {
  }

  /** One step of `SplitAtBreaksNonSpace`: the first piece, the dropped
      whitespace run, and the rest. */
  lemma SplitPieceNonSpace(s: string, i: nat, j: nat, rest: seq<string>)
    requires i <= j <= |s| && AllSpace(s[i..j])
    requires NonSpace(Concat(rest)) == NonSpace(s[j..])
    ensures NonSpace(Concat([s[..i]] + rest)) == NonSpace(s)
  {
    ConcatCons(s[..i], rest);
    NonSpaceAppend(s[..i], Concat(rest));
    assert s == s[..i] + s[i..j] + s[j..];
    NonSpaceDropSpaces(s[..i], s[i..j], s[j..]);
  }

  lemma NonSpaceDropSpaces(a: string, w: string, c: string)
    requires AllSpace(w)
    ensures NonSpace(a + w + c) == NonSpace(a) + NonSpace(c)
  {
    NonSpaceOfSpace(w);
    assert a + w + c == a + (w + c);
    NonSpaceAppend(w, c);
    NonSpaceAppend(a, w + c);
  }

  /** The split is complete: no piece holds a match of `_SENT_END`, so the
      text is cut at every whitespace run after . ? or ! that precedes an
      upper-case letter or '('. */
  lemma {:induction false} SplitAtBreaksComplete(s: string)
    ensures forall k, q :: 0 <= k < |SplitAtBreaks(s)| ==> !BreakAt(SplitAtBreaks(s)[k], q)
    decreases |s|
  {
    FirstBreakLeftmost(s, 1);
    match FirstBreak(s, 1)
    case None =>
      assert SplitAtBreaks(s) == [s];
    case Some(i) =>
      BreakFacts(s, i);
      var j := RunEnd(s, i);
      SplitAtBreaksComplete(s[j..]);
      var rest := SplitAtBreaks(s[j..]);
      var r := SplitAtBreaks(s);
      assert r == [s[..i]] + rest;
      forall k, q | 0 <= k < |r| ensures !BreakAt(r[k], q) {
        if k == 0 {
          if BreakAt(s[..i], q) {
            BreakInPrefix(s, i, q);
            assert false;
          }
        } else {
          assert r[k] == rest[k - 1];
        }
      }
  }

  /** `FirstBreak` finds the leftmost match: there is none between `from` and it. */
  lemma {:induction false} FirstBreakLeftmost(s: string, from: nat)
    requires from >= 1
    ensures forall q :: from <= q && (FirstBreak(s, from).None? || q < FirstBreak(s, from).value) ==> !BreakAt(s, q)
    decreases |s| - from
  {
    if from < |s| && !BreakAt(s, from) {
      FirstBreakLeftmost(s, from + 1);
    }
  }

  /** A whitespace run that ends inside a prefix ends at the same place in the
      whole text. */
  lemma {:induction false} LeadingSpacePrefix(u: string, w: string)
    requires |u| <= |w| && u == w[..|u|] && LeadingSpace(u) < |u|
    ensures LeadingSpace(w) == LeadingSpace(u)
    decreases |u|
  {
    if IsSpace(u[0]) {
      assert u[1..] == w[1..][..|u| - 1];
      LeadingSpacePrefix(u[1..], w[1..]);
    }
  }

  /** A match inside a prefix of the text is a match in the text. */
  lemma BreakInPrefix(s: string, i: nat, q: nat)
    requires i <= |s| && BreakAt(s[..i], q)
    ensures BreakAt(s, q)
  {
    var u, w := s[..i][q..], s[q..];
    assert u == w[..|u|];
    LeadingSpacePrefix(u, w);
  }

  /** A match inside a suffix of the text is a match in the text. */
  lemma BreakInSuffix(s: string, j: nat, q: nat)
    requires j <= |s| && BreakAt(s[j..], q)
    ensures BreakAt(s, j + q)
  {
    assert s[j..][q..] == s[j + q..];
  }

  /** A match inside the stripped text is a match in the text. */
  lemma BreakInStrip(p: string, q: nat)
    requires BreakAt(Strip(p), q)
    ensures BreakAt(p, LeadingSpace(p) + q)
  {
    var o := LeadingSpace(p);
    var l := p[o..];
    assert Strip(p) == l[..|Strip(p)|];
    BreakInPrefix(l, |Strip(p)|, q);
    BreakInSuffix(p, o, q);
  }

  lemma {:induction false} StrippedNoBreak(parts: seq<string>)
    requires forall k, q :: 0 <= k < |parts| ==> !BreakAt(parts[k], q)
    ensures forall k, q :: 0 <= k < |StrippedNonEmpty(parts)| ==> !BreakAt(StrippedNonEmpty(parts)[k], q)
    decreases |parts|
  {
    if parts != [] {
      var p := parts[0];
      var rest := StrippedNonEmpty(parts[1..]);
      assert forall k, q :: 0 <= k < |parts[1..]| ==> !BreakAt(parts[1..][k], q) by {
        forall k, q | 0 <= k < |parts[1..]| ensures !BreakAt(parts[1..][k], q) {
          assert parts[1..][k] == parts[k + 1];
        }
      }
      StrippedNoBreak(parts[1..]);
      var r := StrippedNonEmpty(parts);
      forall k, q | 0 <= k < |r| ensures !BreakAt(r[k], q) {
        if Strip(p) != [] && k == 0 {
          assert r[0] == Strip(p);
          if BreakAt(Strip(p), q) {
            BreakInStrip(p, q);
          }
        } else if Strip(p) != [] {
          assert r[k] == rest[k - 1];
        } else {
          assert r[k] == rest[k];
        }
      }
    }
  }

  /** `[p.strip() for p in parts if p and p.strip()]`. */
  function StrippedNonEmpty(parts: seq<string>): (r: seq<string>)
    ensures |r| <= |parts|
  {
    if parts == [] then []
    else (if Strip(parts[0]) != [] then [Strip(parts[0])] else []) + StrippedNonEmpty(parts[1..])
  }

  lemma {:induction false} StrippedNonEmptyShape(parts: seq<string>)
    ensures forall k :: 0 <= k < |StrippedNonEmpty(parts)| ==>
      StrippedNonEmpty(parts)[k] != [] && Strip(StrippedNonEmpty(parts)[k]) == StrippedNonEmpty(parts)[k]
    ensures NonSpace(Concat(StrippedNonEmpty(parts))) == NonSpace(Concat(parts))
    decreases |parts|
  {
    if parts != [] {
      var p := parts[0];
      var rest := StrippedNonEmpty(parts[1..]);
      StrippedNonEmptyShape(parts[1..]);
      StripStripped(Strip(p));
      NonSpaceStrip(p);
      assert Concat(parts) == p + Concat(parts[1..]);
      NonSpaceAppend(p, Concat(parts[1..]));
      if Strip(p) != [] {
        var r := [Strip(p)] + rest;
        assert StrippedNonEmpty(parts) == r;
        forall k | 0 <= k < |r| ensures r[k] != [] && Strip(r[k]) == r[k] {
          if k > 0 { assert r[k] == rest[k - 1]; }
        }
        assert Concat(r) == Strip(p) + Concat(rest);
        NonSpaceAppend(Strip(p), Concat(rest));
      } else {
        assert StrippedNonEmpty(parts) == rest;
        assert NonSpace(p) == [] by { assert NonSpace(Strip(p)) == NonSpace([]); }
        assert NonSpace(p + Concat(parts[1..])) == NonSpace(Concat(parts[1..]));
      }
    }
  }

  /** `segment_sentences(text)` when spaCy is unavailable. */
  function SegmentSentences(text: string): seq<string>
  {
    StrippedNonEmpty(SplitAtBreaks(CollapseSpaces(ReplaceNbspTab(text))))
  }

  /** Segmentation yields non-empty stripped sentences and loses no visible
      character of the text, nor changes their order. */
  lemma SegmentSentencesSound(text: string)
    ensures forall k :: 0 <= k < |SegmentSentences(text)| ==>
      SegmentSentences(text)[k] != [] && Strip(SegmentSentences(text)[k]) == SegmentSentences(text)[k]
    ensures NonSpace(Concat(SegmentSentences(text))) == NonSpace(text)
  {
    var t := CollapseSpaces(ReplaceNbspTab(text));
    StrippedNonEmptyShape(SplitAtBreaks(t));
    SplitAtBreaksNonSpace(t);
    CollapseSpacesNonSpace(ReplaceNbspTab(text));
    ReplaceNbspTabNonSpace(text);
  }

  /** Segmentation is complete: no sentence it yields holds a whitespace run
      after . ? or ! that precedes an upper-case letter or '('. */
  lemma SegmentSentencesComplete(text: string)
    ensures forall k, q :: 0 <= k < |SegmentSentences(text)| ==> !BreakAt(SegmentSentences(text)[k], q)
  {
    var t := CollapseSpaces(ReplaceNbspTab(text));
    SplitAtBreaksComplete(t);
    StrippedNoBreak(SplitAtBreaks(t));
  }

  /** The text that is split has no NBSP, no tab and no run of two spaces. */
  lemma NormalizedTextClean(text: string)
    ensures var t := CollapseSpaces(ReplaceNbspTab(text));
      NoDoubleSpace(t) && '\U{A0}' !in t && '\t' !in t
  {
    CollapseSpacesShape(ReplaceNbspTab(text));
  }

  // ---------------------------------------------------------------------
  // Keyword matching and filter_ai_sentences
  // ---------------------------------------------------------------------

  /** The words of a phrase occur from `i` on, separated by whitespace runs
      (`\s+` between escaped words; each run is taken whole because the next
      word starts with a visible character). */
  predicate PhraseAt(s: string, i: nat, words: seq<string>)
    decreases |words|
  {
    words != [] && OccursAt(s, i, words[0])
    && (|words| == 1
        || (var j := i + |words[0]|;
            LeadingSpace(s[j..]) >= 1 && PhraseAt(s, j + LeadingSpace(s[j..]), words[1..])))
  }

  /** `(?<![A-Za-z0-9])` before and `(?![A-Za-z0-9])` after the `n` characters at `i`. */
  predicate Isolated(s: string, i: nat, n: nat)
    requires i + n <= |s|
  {
    (i == 0 || !IsAlnum(s[i - 1])) && (i + n == |s| || !IsAlnum(s[i + n]))
  }

  /** The keyword's alternative of the compiled pattern matches `s` at `i`,
      ignoring case. */
  predicate KeywordMatchAt(s: string, i: nat, kw: string)
  {
    var words := SplitWs(Lower(Strip(kw)));
    Strip(kw) != []
    && if |words| == 1 then OccursAt(Lower(s), i, words[0]) && Isolated(s, i, |words[0]|)
       else PhraseAt(Lower(s), i, words)
  }

  predicate KeywordMatches(s: string, kw: string)
  {
    exists i: nat :: i <= |s| && KeywordMatchAt(s, i, kw)
  }

  /** `rx.search(s)` for the pattern `_compile_keyword_regex(keywords)`. */
  predicate AnyKeywordMatches(keywords: seq<string>, s: string)
  {
    exists k :: 0 <= k < |keywords| && KeywordMatches(s, keywords[k])
  }

  /** Blank keywords contribute no alternative: with none left, nothing matches. */
  lemma BlankKeywordsMatchNothing(keywords: seq<string>, s: string)
    requires forall k :: 0 <= k < |keywords| ==> Strip(keywords[k]) == []
    ensures !AnyKeywordMatches(keywords, s)
  {
  }

  /** A one-word keyword does not match inside a longer alphanumeric word. */
  lemma SingleWordNeedsBoundaries(s: string, i: nat, kw: string)
    requires SplitWs(Lower(Strip(kw))) == [Lower(Strip(kw))] && Strip(kw) != []
    requires i + |Strip(kw)| <= |s| && i > 0 && IsAlnum(s[i - 1])
    ensures !KeywordMatchAt(s, i, kw)
  {
  }

  /** `_compile_keyword_regex(keywords)`, seen through its `search`: an
      alternative per non-blank keyword, or a pattern that matches nothing. */
  function KeywordRegex(keywords: seq<string>): string -> bool
  {
    s => AnyKeywordMatches(keywords, s)
  }

  /** The cheap negative filter (short or all-digit lines) and then the search:
      the sentence is kept (stripped). */
  predicate Keep(rx: string -> bool, s: string)
  {
    !(|s| < 4 || IsDigitString(Strip(s))) && rx(s)
  }

  /** The kept sentences, stripped, in input order. */
  function Filtered(rx: string -> bool, sentences: seq<string>): seq<string>
  {
    if sentences == [] then []
    else
      var s := sentences[|sentences| - 1];
      Filtered(rx, sentences[..|sentences| - 1]) + if Keep(rx, s) then [Strip(s)] else []
  }

  /** A search that never succeeds keeps nothing. */
  lemma {:induction false} FilteredNothing(rx: string -> bool, sentences: seq<string>)
    requires forall s :: !rx(s)
    ensures Filtered(rx, sentences) == []
    decreases |sentences|
  {
    if sentences != [] {
      FilteredNothing(rx, sentences[..|sentences| - 1]);
    }
  }

  /** `out` is the kept sentences of `ss`, stripped: `picked` gives, for each
      output sentence, the increasing input position it comes from, and every
      kept position is picked. */
  predicate Selects(rx: string -> bool, ss: seq<string>, out: seq<string>, picked: seq<nat>)
  {
    |picked| == |out|
    && (forall j :: 0 <= j < |picked| ==>
          picked[j] < |ss| && Keep(rx, ss[picked[j]]) && out[j] == Strip(ss[picked[j]]))
    && (forall j, j' :: 0 <= j < j' < |picked| ==> picked[j] < picked[j'])
    && (forall k :: 0 <= k < |ss| && Keep(rx, ss[k]) ==> k in picked)
  }

  /** One more input sentence keeps the selection exact. */
  lemma SelectsSnoc(rx: string -> bool, ss: seq<string>, x: string, out: seq<string>, p: seq<nat>)
    returns (q: seq<nat>)
    requires Selects(rx, ss, out, p)
    ensures Selects(rx, ss + [x], out + if Keep(rx, x) then [Strip(x)] else [], q)
  {
    var ss' := ss + [x];
    assert forall k :: 0 <= k < |ss| ==> ss'[k] == ss[k];
    if Keep(rx, x) {
      q := p + [|ss|];
      assert forall k :: k in p ==> k in q;
    } else {
      q := p;
    }
  }

  /** The output of the filter is exactly the kept sentences, in input order. */
  lemma {:induction false} FilteredSelects(rx: string -> bool, sentences: seq<string>) returns (picked: seq<nat>)
    ensures |picked| == |Filtered(rx, sentences)|
    ensures forall j :: 0 <= j < |picked| ==>
      picked[j] < |sentences| && Keep(rx, sentences[picked[j]])
      && Filtered(rx, sentences)[j] == Strip(sentences[picked[j]])
    ensures forall j, j' :: 0 <= j < j' < |picked| ==> picked[j] < picked[j']
    ensures forall k :: 0 <= k < |sentences| && Keep(rx, sentences[k]) ==> k in picked
    decreases |sentences|
  {
    if sentences == [] {
      picked := [];
    } else {
      var n := |sentences| - 1;
      var p := FilteredSelects(rx, sentences[..n]);
      assert sentences[..n] + [sentences[n]] == sentences;
      picked := SelectsSnoc(rx, sentences[..n], sentences[n], Filtered(rx, sentences[..n]), p);
    }
  }

  /** `filter_ai_sentences(sentences, keywords)`. */
  method FilterAiSentences(sentences: seq<string>, keywords: seq<string>) returns (out: seq<string>)
    ensures out == Filtered(KeywordRegex(keywords), sentences)
  {
    out := [];
    if sentences == [] || keywords == [] {
      if keywords == [] {
        FilteredNothing(KeywordRegex(keywords), sentences);
      }
      return;
    }
    var rx := KeywordRegex(keywords);
    for i := 0 to |sentences|
      invariant out == Filtered(rx, sentences[..i])
    {
      assert sentences[..i + 1][..i] == sentences[..i];
      var s := sentences[i];
      if |s| < 4 || IsDigitString(Strip(s)) {
        continue;
      }
      if rx(s) {
        out := out + [Strip(s)];
      }
    }
    assert sentences[..|sentences|] == sentences;
  }
}
