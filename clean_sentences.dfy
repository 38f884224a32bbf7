/** `clean_ai_sentences.py` (two identical copies): normalising collected
    sentences, dropping the ones that look incomplete, de-duplicating, and
    the label filter applied when the cleaned table is written. */
module CleanSentences {
  import opened Common
  import opened Text
  import Ordering

  /** A table cell: a string, or a missing (NaN / non-string) value. */
  datatype Cell = Str(s: string) | Missing

  predicate AllOf(s: string, p: char -> bool)
  {
    forall k :: 0 <= k < |s| ==> p(s[k])
  }

  /** The length of the longest prefix of characters satisfying `p`. */
  function LeadingRun(s: string, p: char -> bool): (n: nat)
    ensures n <= |s|
  {
    if s != [] && p(s[0]) then 1 + LeadingRun(s[1..], p) else 0
  }

  /** The length of the longest suffix of characters satisfying `p`. */
  function TrailingRun(s: string, p: char -> bool): (n: nat)
    ensures n <= |s|
  {
    if s != [] && p(s[|s| - 1]) then 1 + TrailingRun(s[..|s| - 1], p) else 0
  }

  lemma {:induction false} TrailingRunMaximal(s: string, p: char -> bool)
    ensures AllOf(s[|s| - TrailingRun(s, p)..], p)
    ensures TrailingRun(s, p) == |s| || !p(s[|s| - 1 - TrailingRun(s, p)])
    decreases |s|
  {
    if s != [] && p(s[|s| - 1]) {
      var q := s[..|s| - 1];
      TrailingRunMaximal(q, p);
      var n := TrailingRun(q, p);
      forall k | |s| - (n + 1) <= k < |s| ensures p(s[k]) {
        if k < |s| - 1 { assert s[k] == q[|q| - n..][k - (|q| - n)]; }
      }
    }
  }

  /** A suffix of `p`-characters preceded by a character that is not one is
      exactly the trailing run. */
  lemma {:induction false} TrailingRunExact(s: string, p: char -> bool, j: nat)
    requires j <= |s| && AllOf(s[j..], p) && (j == 0 || !p(s[j - 1]))
    ensures TrailingRun(s, p) == |s| - j
    decreases |s|
  {
    if |s| > j {
      assert s[j..][|s| - 1 - j] == s[|s| - 1];
      var q := s[..|s| - 1];
      assert q[j..] == s[j..][..|s| - 1 - j];
      TrailingRunExact(q, p, j);
    }
  }

  // ---------------------------------------------------------------------
  // normalize_sentence
  // ---------------------------------------------------------------------

  /** The quote characters `STRIP_OUTER_QUOTES_RE` removes at either end. */
  predicate IsQuote(c: char)
  {
    c == '"' || c == '\'' || c == '\U{201C}' || c == '\U{201D}' || c == '\U{2018}' || c == '\U{2019}'
  }

  /** `STRIP_OUTER_QUOTES_RE.match(t).group(1)` on a stripped `t`: the text
      between the leading and the trailing runs of quotes. The lazy middle
      group is a run of `.`, which does not match a newline, so the match
      fails when the middle holds one. */
  function QuoteGroup(t: string): Option<string>
  {
    var r := t[LeadingRun(t, IsQuote)..];
    var x := r[..|r| - TrailingRun(r, IsQuote)];
    if '\n' in x then None else Some(x)
  }

  /** `re.sub(r"\s+", " ", s)`: every maximal run of whitespace becomes one
      space. */
  function CollapseWs(s: string): string
    decreases |s|
  {
    if s == [] then []
    else if IsSpace(s[0]) then " " + CollapseWs(s[LeadingSpace(s)..])
    else [s[0]] + CollapseWs(s[1..])
  }

  /** The only whitespace is single spaces between other characters. */
  predicate SingleSpaced(r: string)
  {
    (forall i :: 0 <= i < |r| && IsSpace(r[i]) ==> r[i] == ' ')
    && (forall i :: 0 <= i < |r| - 1 ==> !(IsSpace(r[i]) && IsSpace(r[i + 1])))
  }

  predicate Stripped(r: string)
  {
    r == [] || (!IsSpace(r[0]) && !IsSpace(r[|r| - 1]))
  }

  /** Collapsing keeps the string empty or not, and whether it starts and
      ends with whitespace. */
  lemma {:induction false} CollapseWsEnds(s: string)
    ensures CollapseWs(s) == [] <==> s == []
    ensures s != [] ==> (IsSpace(CollapseWs(s)[0]) <==> IsSpace(s[0]))
    ensures s != [] ==> (IsSpace(CollapseWs(s)[|CollapseWs(s)| - 1]) <==> IsSpace(s[|s| - 1]))
    decreases |s|
  {
    var r := CollapseWs(s);
    if s != [] {
      var t := if IsSpace(s[0]) then s[LeadingSpace(s)..] else s[1..];
      var c := CollapseWs(t);
      CollapseWsEnds(t);
      LeadingSpaceMaximal(s);
      assert r == [r[0]] + c;
      if t != [] {
        assert r[|r| - 1] == c[|c| - 1];
        assert s[|s| - 1] == t[|t| - 1];
      } else if IsSpace(s[0]) {
        assert AllSpace(s);
        assert IsSpace(s[|s| - 1]);
      }
    }
  }

  /** Collapsing leaves only single spaces between other characters. */
  lemma {:induction false} CollapseWsShape(s: string)
    ensures SingleSpaced(CollapseWs(s))
    decreases |s|
  {
    var r := CollapseWs(s);
    if s != [] {
      var t := if IsSpace(s[0]) then s[LeadingSpace(s)..] else s[1..];
      var c := CollapseWs(t);
      CollapseWsShape(t);
      CollapseWsEnds(t);
      LeadingSpaceMaximal(s);
      assert r == [r[0]] + c;
      forall i | 0 <= i < |r| - 1 ensures !(IsSpace(r[i]) && IsSpace(r[i + 1])) {
        if i > 0 { assert r[i] == c[i - 1] && r[i + 1] == c[i]; }
      }
    }
  }

  /** Collapsing whitespace never loses a visible character. */
  lemma {:induction false} CollapseWsNonSpace(s: string)
    ensures NonSpace(CollapseWs(s)) == NonSpace(s)
    decreases |s|
  {
    if s != [] {
      if IsSpace(s[0]) {
        var n := LeadingSpace(s);
        LeadingSpaceMaximal(s);
        CollapseWsNonSpace(s[n..]);
        assert s == s[..n] + s[n..];
        NonSpaceAppend(s[..n], s[n..]);
        NonSpaceOfSpace(s[..n]);
        NonSpaceAppend(" ", CollapseWs(s[n..]));
        NonSpaceOfSpace(" ");
      } else {
        CollapseWsNonSpace(s[1..]);
        NonSpaceAppend([s[0]], CollapseWs(s[1..]));
        assert s == [s[0]] + s[1..];
        NonSpaceAppend([s[0]], s[1..]);
      }
    }
  }

  /** A single-spaced string is left as it is. */
  lemma {:induction false} CollapseWsFixed(s: string)
    requires SingleSpaced(s)
    ensures CollapseWs(s) == s
    decreases |s|
  {
    if s != [] {
      if IsSpace(s[0]) {
        assert |s| == 1 || !IsSpace(s[1]);
        assert LeadingSpace(s) == 1;
      }
      assert SingleSpaced(s[1..]) by {
        forall i | 0 <= i < |s[1..]| - 1 ensures !(IsSpace(s[1..][i]) && IsSpace(s[1..][i + 1])) {
          assert s[1..][i] == s[i + 1] && s[1..][i + 1] == s[i + 2];
        }
      }
      CollapseWsFixed(s[1..]);
    }
  }

  /** `normalize_sentence(s, drop_outer_quotes)`. */
  function NormalizeSentence(c: Cell, dropOuterQuotes: bool): string
  {
    match c
    case Missing => ""
    case Str(s) =>
      var t := Strip(s);
      var u := if dropOuterQuotes && QuoteGroup(t).Some? then Strip(QuoteGroup(t).value) else t;
      CollapseWs(u)
  }

  /** Collapsing a stripped string gives a stripped, single-spaced one. */
  lemma CollapseStripped(u: string)
    requires Stripped(u)
    ensures Stripped(CollapseWs(u)) && SingleSpaced(CollapseWs(u))
  {
    CollapseWsShape(u);
    CollapseWsEnds(u);
  }

  /** A normalised sentence has no outer whitespace and single spaces
      between words; without quote dropping it keeps every visible character. */
  lemma NormalizedShape(c: Cell, dropOuterQuotes: bool)
    ensures Stripped(NormalizeSentence(c, dropOuterQuotes))
    ensures SingleSpaced(NormalizeSentence(c, dropOuterQuotes))
    ensures c.Missing? ==> NormalizeSentence(c, dropOuterQuotes) == ""
    ensures c.Str? && !dropOuterQuotes ==> NonSpace(NormalizeSentence(c, dropOuterQuotes)) == NonSpace(c.s)
  {
    if c.Str? {
      var t := Strip(c.s);
      var u := if dropOuterQuotes && QuoteGroup(t).Some? then Strip(QuoteGroup(t).value) else t;
      assert NormalizeSentence(c, dropOuterQuotes) == CollapseWs(u);
      CollapseStripped(u);
      if !dropOuterQuotes {
        CollapseWsNonSpace(t);
        NonSpaceStrip(c.s);
      }
    }
  }

  /** Without quote dropping, normalising a normalised sentence again changes
      nothing. */
  lemma NormalizeIdempotent(c: Cell)
    ensures NormalizeSentence(Str(NormalizeSentence(c, false)), false) == NormalizeSentence(c, false)
  {
    var r := NormalizeSentence(c, false);
    NormalizedShape(c, false);
    StripStripped(r);
    CollapseWsFixed(r);
  }

  /** With quote dropping (the default) normalisation is not idempotent: the
      lazy group of `" "a"` keeps the inner quote, which a second pass then
      drops. */
  lemma QuoteDroppingNotIdempotent()
    ensures NormalizeSentence(Str(['"', ' ', '"', 'a', '"']), true) == ['"', 'a']
    ensures NormalizeSentence(Str(['"', 'a']), true) == ['a']
  {
    var t := ['"', ' ', '"', 'a', '"'];
    assert LeadingSpace(t) == 0 && TrailingSpace(t) == 0;
    assert Strip(t) == t;
    assert LeadingRun(t, IsQuote) == 1;
    var r := t[1..];
    assert r == [' ', '"', 'a', '"'];
    assert TrailingRun(r, IsQuote) == 1;
    assert r[..3] == [' ', '"', 'a'];
    assert '\n' !in r[..3];
    assert QuoteGroup(t) == Some([' ', '"', 'a']);
    var x := [' ', '"', 'a'];
    assert LeadingSpace(x) == 1 && LStrip(x) == ['"', 'a'];
    assert Strip(x) == ['"', 'a'];
    assert CollapseWs(['"', 'a']) == ['"', 'a'];
    var t2 := ['"', 'a'];
    assert Strip(t2) == t2;
    assert LeadingRun(t2, IsQuote) == 1;
    assert t2[1..] == ['a'] && TrailingRun(['a'], IsQuote) == 0;
    assert QuoteGroup(t2) == Some(['a']);
    assert Strip(['a']) == ['a'];
    assert CollapseWs(['a']) == ['a'];
  }

  // ---------------------------------------------------------------------
  // first_alpha_is_capital, ends_with_terminal, mostly_non_letters
  // ---------------------------------------------------------------------

  /** `FIRST_ALPHA_RE.search(s)`: the index of the first ASCII letter. */
  function FirstLetter(s: string): (r: Option<nat>)
    ensures r.Some? ==> r.value < |s| && IsLetter(s[r.value])
    ensures r.Some? ==> forall j :: 0 <= j < r.value ==> !IsLetter(s[j])
    ensures r.None? ==> forall j :: 0 <= j < |s| ==> !IsLetter(s[j])
  {
    if s == [] then None
    else if IsLetter(s[0]) then Some(0)
    else match FirstLetter(s[1..])
      case None => None
      case Some(k) => Some(k + 1)
  }

  predicate FirstAlphaIsCapital(s: string)
  {
    var f := FirstLetter(s);
    f.Some? && IsUpperLetter(s[f.value])
  }

  /** True exactly when some letter is upper-case and no letter precedes it. */
  lemma FirstAlphaIsCapitalIff(s: string)
    ensures FirstAlphaIsCapital(s)
        <==> exists i :: 0 <= i < |s| && IsUpperLetter(s[i]) && forall j :: 0 <= j < i ==> !IsLetter(s[j])
  {
    var f := FirstLetter(s);
    if exists i :: 0 <= i < |s| && IsUpperLetter(s[i]) && forall j :: 0 <= j < i ==> !IsLetter(s[j]) {
      var i :| 0 <= i < |s| && IsUpperLetter(s[i]) && forall j :: 0 <= j < i ==> !IsLetter(s[j]);
      assert f.Some?;
      assert IsLetter(s[f.value]) && IsLetter(s[i]);
    }
  }

  predicate IsTerminal(c: char) { c == '.' || c == '!' || c == '?' }

  /** The closing characters `ALLOWED_TERMINALS_RE` allows after the
      terminal mark. */
  predicate IsCloser(c: char)
  {
    c == ')' || c == ']' || c == '"' || c == '\'' || c == '\U{201D}' || c == '\U{2019}'
  }

  /** A pattern of the shape `[mark][closer]*[space]*$`, read from the end:
      drop the trailing spaces, then the trailing closers, and look at what
      is left. */
  predicate EndsWithMark(s: string, mark: char -> bool, closer: char -> bool, space: char -> bool)
  {
    var u := s[..|s| - TrailingRun(s, space)];
    var v := u[..|u| - TrailingRun(u, closer)];
    v != [] && mark(v[|v| - 1])
  }

  /** The same pattern read from the front: a mark at `i`, closers up to
      `j`, spaces from `j` to the end. */
  predicate MarkAt(s: string, i: int, j: int, mark: char -> bool, closer: char -> bool, space: char -> bool)
  {
    0 <= i < j <= |s| && mark(s[i]) && AllOf(s[i + 1..j], closer) && AllOf(s[j..], space)
  }

  /** `ALLOWED_TERMINALS_RE.search(s)`. */
  predicate EndsWithTerminal(s: string)
  {
    EndsWithMark(s, IsTerminal, IsCloser, IsSpace)
  }

  /** The reading from the end agrees with the pattern: a terminal mark,
      then closers, then whitespace up to the end. */
  lemma EndsWithTerminalIff(s: string)
    ensures EndsWithTerminal(s) <==> exists i, j :: MarkAt(s, i, j, IsTerminal, IsCloser, IsSpace)
  {
    assert forall c :: IsTerminal(c) ==> !IsCloser(c) && !IsSpace(c);
    assert forall c :: IsCloser(c) ==> !IsSpace(c);
    EndsWithMarkIff(s, IsTerminal, IsCloser, IsSpace);
  }

  /** When marks, closers and spaces are disjoint, the two readings agree. */
  lemma EndsWithMarkIff(s: string, mark: char -> bool, closer: char -> bool, space: char -> bool)
    requires forall c :: mark(c) ==> !closer(c) && !space(c)
    requires forall c :: closer(c) ==> !space(c)
    ensures EndsWithMark(s, mark, closer, space) <==> exists i, j :: MarkAt(s, i, j, mark, closer, space)
  {
    if EndsWithMark(s, mark, closer, space) {
      var j := |s| - TrailingRun(s, space);
      var u := s[..j];
      var i := j - TrailingRun(u, closer) - 1;
      TrailingRunMaximal(s, space);
      TrailingRunMaximal(u, closer);
      assert s[i + 1..j] == u[i + 1..];
      assert MarkAt(s, i, j, mark, closer, space);
    }
    if exists i, j :: MarkAt(s, i, j, mark, closer, space) {
      var i, j :| MarkAt(s, i, j, mark, closer, space);
      assert !space(s[j - 1]) by {
        if j - 1 > i { assert s[i + 1..j][j - 2 - i] == s[j - 1]; }
      }
      TrailingRunExact(s, space, j);
      var u := s[..j];
      assert u[i + 1..] == s[i + 1..j];
      TrailingRunExact(u, closer, i + 1);
      assert u[..i + 1] == s[..i + 1];
    }
  }

  /** How many characters of `s` are letters (`str.isalpha`, ASCII). */
  function CountLetters(s: string): (n: nat)
    ensures n <= |s|
  {
    if s == [] then 0 else (if IsLetter(s[0]) then 1 else 0) + CountLetters(s[1..])
  }

  /** `mostly_non_letters(s)` with the default threshold 0.6: the
      non-letter count is at least three fifths of the length (see
      `RatioAtLeast` for the ratio form). */
  predicate MostlyNonLetters(s: string)
  {
    s == [] || 5 * (|s| - CountLetters(s)) >= 3 * |s|
  }

  /** The letter count is exact: all letters gives the length, no letter
      gives zero. */
  lemma {:induction false} CountLettersBounds(s: string)
    ensures (forall k :: 0 <= k < |s| ==> IsLetter(s[k])) ==> CountLetters(s) == |s|
    ensures (forall k :: 0 <= k < |s| ==> !IsLetter(s[k])) ==> CountLetters(s) == 0
  {
    if s != [] {
      CountLettersBounds(s[1..]);
      assert forall k :: 0 <= k < |s[1..]| ==> s[1..][k] == s[k + 1];
    }
  }

  /** Text made only of letters is never mostly non-letters; non-empty text
      without a letter always is. */
  lemma MostlyNonLettersExtremes(s: string)
    ensures s != [] && (forall k :: 0 <= k < |s| ==> IsLetter(s[k])) ==> !MostlyNonLetters(s)
    ensures (forall k :: 0 <= k < |s| ==> !IsLetter(s[k])) ==> MostlyNonLetters(s)
  {
    CountLettersBounds(s);
  }

  /** `a / max(n, 1)` in exact arithmetic. */
  function Fraction(a: int, n: int): real
    requires n > 0
  {
    (a as real) / (n as real)
  }

  /** The integer test `5 * a >= 3 * n` is the source's ratio test
      `a / n >= 0.6`, with `a` the non-letter count and `n` the length. */
  lemma RatioAtLeast(a: int, n: int)
    requires 0 <= a <= n && n > 0
    ensures 5 * a >= 3 * n <==> Fraction(a, n) >= 0.6
  {
    DivAtLeast(a as real, n as real, 0.6);
  }

  lemma DivAtLeast(x: real, n: real, t: real)
    requires n > 0.0
    ensures x / n >= t <==> x >= t * n
  {
    var q := x / n;
    assert x == q * n;
    if q >= t {
      assert q * n >= t * n;
    } else {
      assert q * n < t * n;
    }
  }

  // ---------------------------------------------------------------------
  // is_incomplete
  // ---------------------------------------------------------------------

  /** The command-line thresholds and switches of the filter. */
  datatype Settings = Settings(minTokens: int, minChars: int, requireCapital: bool, requireTerminal: bool)

  /** `f"{n}"` for an integer. */
  function IntToString(n: int): string
  {
    if n < 0 then "-" + NatToString(-n) else NatToString(n)
  }

  /** `is_incomplete(s, ...)`: whether to drop the sentence, and why. */
  function IsIncomplete(s: string, cfg: Settings): (bool, string)
  {
    if |SplitWs(s)| < cfg.minTokens then (true, "tokens<" + IntToString(cfg.minTokens))
    else if |s| < cfg.minChars then (true, "chars<" + IntToString(cfg.minChars))
    else if cfg.requireCapital && !FirstAlphaIsCapital(s) then (true, "no_initial_cap")
    else if cfg.requireTerminal && !EndsWithTerminal(s) then (true, "no_terminal_punct")
    else if MostlyNonLetters(s) then (true, "mostly_non_letters")
    else (false, "")
  }

  /** The five checks, in the order the source tries them. */
  datatype Check = TokensCheck | CharsCheck | CapitalCheck | TerminalCheck | LettersCheck

  const Checks: seq<Check> := [TokensCheck, CharsCheck, CapitalCheck, TerminalCheck, LettersCheck]

  predicate Fails(c: Check, s: string, cfg: Settings)
  {
    match c
    case TokensCheck => |SplitWs(s)| < cfg.minTokens
    case CharsCheck => |s| < cfg.minChars
    case CapitalCheck => cfg.requireCapital && !FirstAlphaIsCapital(s)
    case TerminalCheck => cfg.requireTerminal && !EndsWithTerminal(s)
    case LettersCheck => MostlyNonLetters(s)
  }

  function ReasonOf(c: Check, cfg: Settings): string
  {
    match c
    case TokensCheck => "tokens<" + IntToString(cfg.minTokens)
    case CharsCheck => "chars<" + IntToString(cfg.minChars)
    case CapitalCheck => "no_initial_cap"
    case TerminalCheck => "no_terminal_punct"
    case LettersCheck => "mostly_non_letters"
  }

  /** The first position of `cs` whose check `failed` says fails. */
  function FirstWhere(cs: seq<Check>, failed: Check -> bool): (r: Option<nat>)
    ensures r.Some? ==> r.value < |cs| && failed(cs[r.value])
    ensures r.Some? ==> forall k :: 0 <= k < r.value ==> !failed(cs[k])
    ensures r.None? ==> forall k :: 0 <= k < |cs| ==> !failed(cs[k])
  {
    if cs == [] then None
    else if failed(cs[0]) then Some(0)
    else match FirstWhere(cs[1..], failed)
      case None => None
      case Some(k) => Some(k + 1)
  }

  /** The first check in `cs` that fails. */
  function FirstFailing(cs: seq<Check>, s: string, cfg: Settings): (r: Option<nat>)
    ensures r.Some? ==> r.value < |cs| && Fails(cs[r.value], s, cfg)
    ensures r.Some? ==> forall k :: 0 <= k < r.value ==> !Fails(cs[k], s, cfg)
    ensures r.None? ==> forall k :: 0 <= k < |cs| ==> !Fails(cs[k], s, cfg)
  {
    FirstWhere(cs, c => Fails(c, s, cfg))
  }

  /** `is_incomplete` reports the first failing check in the order tokens,
      chars, capital, terminal, non-letters, and keeps the sentence with an
      empty reason when none fails. */
  lemma IsIncompleteFirstFailing(s: string, cfg: Settings)
    ensures IsIncomplete(s, cfg)
         == match FirstFailing(Checks, s, cfg)
            case None => (false, "")
            case Some(k) => (true, ReasonOf(Checks[k], cfg))
  {
    var f := FirstFailing(Checks, s, cfg);
    if f.Some? {
      var k := f.value;
      assert k == 0 || !Fails(Checks[0], s, cfg);
      assert k <= 1 || !Fails(Checks[1], s, cfg);
      assert k <= 2 || !Fails(Checks[2], s, cfg);
      assert k <= 3 || !Fails(Checks[3], s, cfg);
    } else {
      assert !Fails(Checks[0], s, cfg) && !Fails(Checks[1], s, cfg) && !Fails(Checks[2], s, cfg);
      assert !Fails(Checks[3], s, cfg) && !Fails(Checks[4], s, cfg);
    }
  }

  /** The reason is empty exactly when the sentence is kept. */
  lemma ReasonEmptyIffKept(s: string, cfg: Settings)
    ensures IsIncomplete(s, cfg).0 <==> IsIncomplete(s, cfg).1 != ""
  {
  }

  // ---------------------------------------------------------------------
  // choose_columns
  // ---------------------------------------------------------------------

  /** `{c.lower(): c for c in columns}.get(key)`: a later column with the
      same lower-cased name replaces an earlier one. */
  function ColumnFor(columns: seq<string>, key: string): (r: Option<string>)
    ensures r.Some? ==> r.value in columns && Lower(r.value) == key
    ensures r.None? ==> forall c :: c in columns ==> Lower(c) != key
  {
    if columns == [] then None
    else if Lower(columns[|columns| - 1]) == key then Some(columns[|columns| - 1])
    else
      var r := ColumnFor(columns[..|columns| - 1], key);
      assert forall c :: c in columns ==> c in columns[..|columns| - 1] || c == columns[|columns| - 1];
      r
  }

  /** `a or b` on two lookups; a found column name is never empty. */
  function OrElse(a: Option<string>, b: Option<string>): Option<string>
  {
    if a.Some? && a.value != "" then a else b
  }

  /** `choose_columns(df)`: the sentence and label columns, or ValueError. */
  function ChooseColumns(columns: seq<string>): Result<(string, string)>
  {
    var sent := OrElse(ColumnFor(columns, "sentence"), ColumnFor(columns, "sent_text"));
    var lab := OrElse(ColumnFor(columns, "label"), ColumnFor(columns, "label_pred"));
    if sent.None? || lab.None? then Failure("ValueError") else Success((sent.value, lab.value))
  }

  predicate HasColumn(columns: seq<string>, key: string)
  {
    exists c :: c in columns && Lower(c) == key
  }

  /** The detection is case-insensitive, prefers `sentence` over
      `sent_text` and `label` over `label_pred`, and fails exactly when one
      of the two roles has no column. */
  lemma ChooseColumnsSpec(columns: seq<string>)
    ensures ChooseColumns(columns).Success?
        <==> (HasColumn(columns, "sentence") || HasColumn(columns, "sent_text"))
             && (HasColumn(columns, "label") || HasColumn(columns, "label_pred"))
    ensures ChooseColumns(columns).Success? ==>
      var (sc, lc) := ChooseColumns(columns).value;
      sc in columns && lc in columns
      && Lower(sc) == (if HasColumn(columns, "sentence") then "sentence" else "sent_text")
      && Lower(lc) == (if HasColumn(columns, "label") then "label" else "label_pred")
  {
    Found(columns, "sentence");
    Found(columns, "sent_text");
    Found(columns, "label");
    Found(columns, "label_pred");
  }

  lemma Found(columns: seq<string>, key: string)
    requires key != ""
    ensures ColumnFor(columns, key).Some? <==> HasColumn(columns, key)
    ensures ColumnFor(columns, key).Some? ==> ColumnFor(columns, key).value != ""
  {
    var r := ColumnFor(columns, key);
    if r.Some? {
      assert Lower(r.value) == key;
    }
  }

  // ---------------------------------------------------------------------
  // main: filter, de-duplicate, write
  // ---------------------------------------------------------------------

  /** A row carried through the pipeline: the normalised sentence and the
      raw label cell. */
  datatype Row = Row(sentence: string, labelCell: Cell)

  function Normalized(sentences: seq<string>, dropOuterQuotes: bool): (r: seq<string>)
    ensures |r| == |sentences|
    ensures forall i :: 0 <= i < |r| ==> r[i] == NormalizeSentence(Str(sentences[i]), dropOuterQuotes)
  {
    seq(|sentences|, i requires 0 <= i < |sentences| => NormalizeSentence(Str(sentences[i]), dropOuterQuotes))
  }

  /** `is_incomplete` with the command-line settings. */
  function Judge(cfg: Settings): string -> (bool, string)
  {
    s => IsIncomplete(s, cfg)
  }

  /** A verdict per row: whether it is dropped, and why. */
  function Verdicts(ss: seq<string>, judge: string -> (bool, string)): (vs: seq<(bool, string)>)
    ensures |vs| == |ss|
  {
    seq(|ss|, i requires 0 <= i < |ss| => judge(ss[i]))
  }

  /** `dropped_reasons` after the verdicts `vs`. */
  function DropCounts(vs: seq<(bool, string)>): map<string, nat>
  {
    if vs == [] then map[]
    else
      var d := DropCounts(vs[..|vs| - 1]);
      var r := vs[|vs| - 1];
      if r.0 then d[r.1 := (if r.1 in d then d[r.1] else 0) + 1] else d
  }

  /** Every key of `dropped_reasons` is the non-empty reason of some dropped
      row, counted at least once, and every dropped row's reason is a key. */
  lemma {:induction false} DropCountsReasons(vs: seq<(bool, string)>)
    requires forall i :: 0 <= i < |vs| && vs[i].0 ==> vs[i].1 != ""
    ensures forall w :: w in DropCounts(vs) ==> w != "" && DropCounts(vs)[w] >= 1
    ensures forall i :: 0 <= i < |vs| && vs[i].0 ==> vs[i].1 in DropCounts(vs)
  {
    if vs != [] {
      var p := vs[..|vs| - 1];
      assert forall i :: 0 <= i < |p| ==> p[i] == vs[i];
      DropCountsReasons(p);
    }
  }

  /** The filter's verdicts satisfy the premise of `DropCountsReasons`. */
  lemma VerdictsReasons(ss: seq<string>, cfg: Settings)
    ensures forall i :: 0 <= i < |ss| && Verdicts(ss, Judge(cfg))[i].0 ==> Verdicts(ss, Judge(cfg))[i].1 != ""
  {
    forall i | 0 <= i < |ss| ensures Verdicts(ss, Judge(cfg))[i].0 ==> Verdicts(ss, Judge(cfg))[i].1 != "" {
      ReasonEmptyIffKept(ss[i], cfg);
    }
  }

  /** The filter loop of `main`: one keep flag and one reason per row, and
      the count of each drop reason. */
  method FilterRows(ss: seq<string>, cfg: Settings) returns (keep: seq<bool>, reasons: seq<string>, dropped: map<string, nat>)
    ensures |keep| == |ss| && |reasons| == |ss|
    ensures forall i :: 0 <= i < |ss| ==> keep[i] == !IsIncomplete(ss[i], cfg).0 && reasons[i] == IsIncomplete(ss[i], cfg).1
    ensures dropped == DropCounts(Verdicts(ss, Judge(cfg)))
  {
    keep, reasons, dropped := FilterWith(ss, Judge(cfg));
  }

  /** The same loop for any verdict function. */
  method FilterWith(ss: seq<string>, judge: string -> (bool, string)) returns (keep: seq<bool>, reasons: seq<string>, dropped: map<string, nat>)
    ensures |keep| == |ss| && |reasons| == |ss|
    ensures forall i :: 0 <= i < |ss| ==> keep[i] == !judge(ss[i]).0 && reasons[i] == judge(ss[i]).1
    ensures dropped == DropCounts(Verdicts(ss, judge))
  {
    ghost var vs := Verdicts(ss, judge);
    keep, reasons, dropped := [], [], map[];
    for i := 0 to |ss|
      invariant |keep| == i && |reasons| == i
      invariant forall k :: 0 <= k < i ==> keep[k] == !vs[k].0 && reasons[k] == vs[k].1
      invariant dropped == DropCounts(vs[..i])
    {
      assert vs[..i + 1][..i] == vs[..i];
      var r := judge(ss[i]);
      keep := keep + [!r.0];
      reasons := reasons + [r.1];
      if r.0 {
        dropped := dropped[r.1 := (if r.1 in dropped then dropped[r.1] else 0) + 1];
      }
    }
    assert vs[..|ss|] == vs;
  }

  /** The rows whose verdict keeps them, in input order. */
  function KeptRows(ss: seq<string>, labels: seq<Cell>, vs: seq<(bool, string)>): (r: seq<Row>)
    requires |labels| == |ss| && |vs| == |ss|
  {
    if ss == [] then []
    else
      var n := |ss| - 1;
      var p := KeptRows(ss[..n], labels[..n], vs[..n]);
      if vs[n].0 then p else p + [Row(ss[n], labels[n])]
  }

  /** `kept` holds exactly the rows the verdicts keep, in order. */
  lemma {:induction false} KeptRowsExact(ss: seq<string>, labels: seq<Cell>, vs: seq<(bool, string)>)
    requires |labels| == |ss| && |vs| == |ss|
    ensures forall r :: r in KeptRows(ss, labels, vs) ==> exists i :: 0 <= i < |ss| && !vs[i].0 && r == Row(ss[i], labels[i])
    ensures forall i :: 0 <= i < |ss| && !vs[i].0 ==> Row(ss[i], labels[i]) in KeptRows(ss, labels, vs)
    ensures |KeptRows(ss, labels, vs)| <= |ss|
  {
    if ss != [] {
      var n := |ss| - 1;
      KeptRowsExact(ss[..n], labels[..n], vs[..n]);
      forall i | 0 <= i < n ensures ss[..n][i] == ss[i] && labels[..n][i] == labels[i] && vs[..n][i] == vs[i] {
      }
    }
  }

  /** The de-duplication key of a sentence: case-folded on request. */
  function KeyOf(casefold: bool, s: string): string
  {
    if casefold then Lower(s) else s
  }

  function SentenceKey(r: Row): string { KeyOf(false, r.sentence) }
  function FoldedKey(r: Row): string { KeyOf(true, r.sentence) }

  /** The de-duplication key of a row. */
  function KeyFor(casefold: bool): (k: Row -> string)
    ensures forall r :: k(r) == KeyOf(casefold, r.sentence)
  {
    if casefold then FoldedKey else SentenceKey
  }

  /** The `seen`-set loop: the first row for each key, in order. The result
      has distinct keys, is an order-preserving selection of the input, and
      loses no key. */
  method DedupeRows(kept: seq<Row>, casefold: bool) returns (uniq: seq<Row>)
    ensures uniq == Ordering.DedupeBy(kept, KeyFor(casefold))
    ensures forall i, j :: 0 <= i < j < |uniq| ==> KeyFor(casefold)(uniq[i]) != KeyFor(casefold)(uniq[j])
    ensures Ordering.IsSubsequence(uniq, kept)
    ensures Ordering.KeysOf(uniq, KeyFor(casefold)) == Ordering.KeysOf(kept, KeyFor(casefold))
  {
    var key := KeyFor(casefold);
    var seen: set<string> := {};
    uniq := [];
    for i := 0 to |kept|
      invariant uniq == Ordering.DedupeBy(kept[..i], key)
      invariant seen == Ordering.KeysOf(uniq, key)
    {
      assert kept[..i + 1][..i] == kept[..i];
      var k := key(kept[i]);
      if k !in seen {
        Ordering.KeysOfSnoc(uniq, kept[i], key);
        seen := seen + {k};
        uniq := uniq + [kept[i]];
      }
    }
    assert kept[..|kept|] == kept;
    Ordering.DedupeByDistinct(kept, key);
    Ordering.DedupeBySubsequence(kept, key);
    Ordering.DedupeByKeys(kept, key);
  }

  /** The label written for a row, or None when the row is skipped: NaN,
      blank after stripping, or "ERROR" in any case. */
  function WrittenLabel(c: Cell): (r: Option<string>)
    ensures r.Some? ==> r.value != "" && Stripped(r.value) && Upper(r.value) != "ERROR"
  {
    match c
    case Missing => None
    case Str(s) =>
      var t := Strip(s);
      if t == [] || Upper(t) == "ERROR" then None else Some(t)
  }

  /** The rows the writer emits. */
  function Written(uniq: seq<Row>): seq<(string, string)>
  {
    if uniq == [] then []
    else
      var p := Written(uniq[..|uniq| - 1]);
      var x := uniq[|uniq| - 1];
      match WrittenLabel(x.labelCell)
      case None => p
      case Some(l) => p + [(x.sentence, l)]
  }

  /** Every written row comes from a de-duplicated row whose label passes
      the write filter. */
  lemma {:induction false} WrittenFrom(uniq: seq<Row>)
    ensures forall w :: w in Written(uniq) ==>
      exists i :: 0 <= i < |uniq| && uniq[i].sentence == w.0 && WrittenLabel(uniq[i].labelCell) == Some(w.1)
  {
    if uniq != [] {
      var p := uniq[..|uniq| - 1];
      WrittenFrom(p);
      forall w | w in Written(uniq)
        ensures exists i :: 0 <= i < |uniq| && uniq[i].sentence == w.0 && WrittenLabel(uniq[i].labelCell) == Some(w.1)
      {
        if w in Written(p) {
          var i :| 0 <= i < |p| && p[i].sentence == w.0 && WrittenLabel(p[i].labelCell) == Some(w.1);
          assert uniq[i] == p[i];
        } else {
          assert uniq[|uniq| - 1].sentence == w.0;
        }
      }
    }
  }

  /** The write loop. */
  method WriteRows(uniq: seq<Row>) returns (out: seq<(string, string)>)
    ensures out == Written(uniq)
  {
    out := [];
    for i := 0 to |uniq|
      invariant out == Written(uniq[..i])
    {
      assert uniq[..i + 1][..i] == uniq[..i];
      var lab := WrittenLabel(uniq[i].labelCell);
      if lab.Some? {
        out := out + [(uniq[i].sentence, lab.value)];
      }
    }
    assert uniq[..|uniq| - 0] == uniq;
  }

  /** Because the label filter runs after de-duplication, a key whose first
      kept row carries an unwritable label (such as "ERROR") is missing from
      the output even when a later duplicate has a good label. */
  lemma FirstLabelDecides(kept: seq<Row>, casefold: bool, i: nat)
    requires i < |kept| && WrittenLabel(kept[i].labelCell).None?
    requires forall j :: 0 <= j < i ==> KeyOf(casefold, kept[j].sentence) != KeyOf(casefold, kept[i].sentence)
    ensures forall w :: w in Written(Ordering.DedupeBy(kept, KeyFor(casefold))) ==> KeyOf(casefold, w.0) != KeyOf(casefold, kept[i].sentence)
  {
    var key := KeyFor(casefold);
    var uniq := Ordering.DedupeBy(kept, key);
    Ordering.DedupeByKeepsFirst(kept, key);
    Ordering.DedupeByDistinct(kept, key);
    WrittenFrom(uniq);
    assert kept[i] in uniq;
    var m :| 0 <= m < |uniq| && uniq[m] == kept[i];
    forall w | w in Written(uniq) ensures KeyOf(casefold, w.0) != KeyOf(casefold, kept[i].sentence) {
      var n :| 0 <= n < |uniq| && uniq[n].sentence == w.0 && WrittenLabel(uniq[n].labelCell) == Some(w.1);
      assert n != m;
      assert key(uniq[n]) != key(uniq[m]) by {
        if n < m {} else {}
      }
    }
  }

  /** The loop that collects the kept rows from the keep flags. */
  method KeepRows(ss: seq<string>, labels: seq<Cell>, ghost vs: seq<(bool, string)>, keep: seq<bool>) returns (kept: seq<Row>)
    requires |labels| == |ss| && |vs| == |ss| && |keep| == |ss|
    requires forall i :: 0 <= i < |ss| ==> keep[i] == !vs[i].0
    ensures kept == KeptRows(ss, labels, vs)
  {
    kept := [];
    for i := 0 to |ss|
      invariant kept == KeptRows(ss[..i], labels[..i], vs[..i])
    {
      assert ss[..i + 1][..i] == ss[..i] && labels[..i + 1][..i] == labels[..i] && vs[..i + 1][..i] == vs[..i];
      if keep[i] {
        kept := kept + [Row(ss[i], labels[i])];
      }
    }
    assert ss[..|ss|] == ss && labels[..|labels|] == labels && vs[..|vs|] == vs;
  }

  /** Filter, de-duplicate and write, for any verdict function. */
  method CleanWith(ss: seq<string>, labels: seq<Cell>, judge: string -> (bool, string), casefold: bool)
    returns (out: seq<(string, string)>, keptBasic: nat, keptFinal: nat, dropped: map<string, nat>)
    requires |labels| == |ss|
    ensures var vs := Verdicts(ss, judge);
      var uniq := Ordering.DedupeBy(KeptRows(ss, labels, vs), KeyFor(casefold));
      && out == Written(uniq)
      && keptBasic == |KeptRows(ss, labels, vs)|
      && keptFinal == |uniq|
      && dropped == DropCounts(vs)
    ensures keptFinal <= keptBasic <= |ss|
  {
    var keep, reasons;
    keep, reasons, dropped := FilterWith(ss, judge);
    ghost var vs := Verdicts(ss, judge);
    var kept := KeepRows(ss, labels, vs, keep);
    KeptRowsExact(ss, labels, vs);
    var uniq := DedupeRows(kept, casefold);
    Ordering.SubsequenceLength(uniq, kept);
    out := WriteRows(uniq);
    keptBasic, keptFinal := |kept|, |uniq|;
  }

  /** `main` after the columns are chosen: normalise, filter, de-duplicate,
      write. Returns the written rows and the report's counts. */
  method CleanTable(sentences: seq<string>, labels: seq<Cell>, cfg: Settings, dropOuterQuotes: bool, casefold: bool)
    returns (out: seq<(string, string)>, totalIn: nat, keptBasic: nat, keptFinal: nat, dropped: map<string, nat>)
    requires |labels| == |sentences|
    ensures var ss := Normalized(sentences, dropOuterQuotes);
      var vs := Verdicts(ss, Judge(cfg));
      var uniq := Ordering.DedupeBy(KeptRows(ss, labels, vs), KeyFor(casefold));
      && out == Written(uniq)
      && totalIn == |sentences|
      && keptBasic == |KeptRows(ss, labels, vs)|
      && keptFinal == |uniq|
      && dropped == DropCounts(vs)
    ensures keptFinal <= keptBasic <= totalIn
  {
    var ss := Normalized(sentences, dropOuterQuotes);
    out, keptBasic, keptFinal, dropped := CleanWith(ss, labels, Judge(cfg), casefold);
    totalIn := |sentences|;
  }
}
