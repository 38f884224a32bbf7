/** Cleaning company names so that they can be matched (`clean_company_name`).
    `\s` is `Text.IsSpace`; `\w` and `str.lower()` are taken over ASCII. */
module CompanyLookup {
  import opened Common
  import opened Text

  /** `\w`: a letter, a digit or `_`. */
  predicate IsWordChar(c: char) { IsAlnum(c) || c == '_' }

  /** What `[^\w\s]` leaves in place. */
  predicate Keep(c: char) { IsWordChar(c) || IsSpace(c) }

  /** A character a cleaned name may hold besides its single spaces. */
  predicate NameChar(c: char) { IsWordChar(c) && !IsUpperLetter(c) }

  /** One suffix pattern: `\s+<word>$`, or `\s+<word>\.?$` when `dot` holds. */
  datatype Suffix = Suffix(word: string, dot: bool)

  /** The suffix patterns, in the order they are applied. */
  const Inc := Suffix("inc", true)
  const Corp := Suffix("corp", true)
  const Corporation := Suffix("corporation", false)
  const Ltd := Suffix("ltd", true)
  const Llc := Suffix("llc", false)
  const Co := Suffix("co", true)
  const Company := Suffix("company", false)
  const Suffixes: seq<Suffix> := [Inc, Corp, Corporation, Ltd, Llc, Co, Company]

  /** A suffix word that ends in a letter, as every word above does. */
  predicate ProperWord(w: string) { w != [] && IsLowerLetter(w[|w| - 1]) }

  /** `$` without MULTILINE: at the very end, or just before a final newline. */
  predicate AtEnd(s: string, j: nat) { j == |s| || (j + 1 == |s| && s[j] == '\n') }

  /** The pattern for `x` matches `s[i..j]`: the whitespace `s[i..k]`, then
      the word (with its dot, when allowed) `s[k..j]`, ending where `$` does. */
  predicate MatchAt(s: string, x: Suffix, i: nat, k: nat, j: nat) {
    i < k <= j && AtEnd(s, j) && AllSpace(s[i..k])
    && (s[k..j] == x.word || (x.dot && s[k..j] == x.word + "."))
  }

  /** Where a match has to end: before a final newline, else at the end. */
  function BodyEnd(s: string): (e: nat)
    ensures e <= |s| && AtEnd(s, e)
  {
    if s != [] && s[|s| - 1] == '\n' then |s| - 1 else |s|
  }

  /** The word text a match has to end with: the dotted form when `s` has it. */
  function WordText(s: string, x: Suffix): string
  {
    if x.dot && EndsWith(s[..BodyEnd(s)], x.word + ".") then x.word + "." else x.word
  }

  /** The search `re.sub` makes: the leftmost match as (start, word start, end). */
  function FindSuffix(s: string, x: Suffix): (r: Option<(nat, nat, nat)>)
    ensures r.Some? ==> r.value.0 < r.value.1 <= r.value.2 <= |s|
  {
    var e := BodyEnd(s);
    var t := WordText(s, x);
    if |t| < e && s[e - |t|..e] == t && IsSpace(s[e - |t| - 1]) then
      var k := e - |t|;
      Some((k - TrailingSpace(s[..k]), k, e))
    else None
  }

  /** Every match ends at `BodyEnd(s)` and has its word start at the same place. */
  lemma MatchShape(s: string, x: Suffix, i: nat, k: nat, j: nat)
    requires ProperWord(x.word) && MatchAt(s, x, i, k, j)
    ensures j == BodyEnd(s) && k == j - |WordText(s, x)|
  {
    var w := s[k..j];
    assert w[|w| - 1] == s[j - 1];
    assert w[|w| - 1] == x.word[|x.word| - 1] || w[|w| - 1] == '.';
    assert j == BodyEnd(s);
    var body := s[..j];
    if w != x.word {
      assert body[|body| - |x.word + "."|..] == w;
    }
  }

  /** Any match is what `FindSuffix` finds, or starts further right. */
  lemma MatchIsFound(s: string, x: Suffix, i: nat, k: nat, j: nat)
    requires ProperWord(x.word) && MatchAt(s, x, i, k, j)
    ensures FindSuffix(s, x).Some?
    ensures FindSuffix(s, x).value.0 <= i && FindSuffix(s, x).value.1 == k && FindSuffix(s, x).value.2 == j
  {
    MatchShape(s, x, i, k, j);
    assert IsSpace(s[i..k][k - 1 - i]);
    TrailingSpaceMaximal(s[..k]);
  }

  /** What `FindSuffix` finds is a match. */
  lemma FoundIsMatch(s: string, x: Suffix)
    requires FindSuffix(s, x).Some?
    ensures var (i, k, j) := FindSuffix(s, x).value; MatchAt(s, x, i, k, j)
  {
    var e := BodyEnd(s);
    var t := WordText(s, x);
    var k := e - |t|;
    var n := TrailingSpace(s[..k]);
    TrailingSpaceMaximal(s[..k]);
    assert s[k - n..k] == s[..k][k - n..];
  }

  /** `FindSuffix` finds the leftmost match, and nothing when there is none;
      all matches share their word start and end. */
  lemma FindSuffixMatches(s: string, x: Suffix)
    requires ProperWord(x.word)
    ensures FindSuffix(s, x).Some? ==>
      var (i0, k0, j0) := FindSuffix(s, x).value;
      MatchAt(s, x, i0, k0, j0) &&
      forall i: nat, k: nat, j: nat :: MatchAt(s, x, i, k, j) ==> i0 <= i && k == k0 && j == j0
    ensures FindSuffix(s, x).None? <==> forall i: nat, k: nat, j: nat :: !MatchAt(s, x, i, k, j)
  {
    forall i: nat, k: nat, j: nat | MatchAt(s, x, i, k, j)
      ensures FindSuffix(s, x).Some?
      ensures FindSuffix(s, x).value.0 <= i && FindSuffix(s, x).value.1 == k && FindSuffix(s, x).value.2 == j
    {
      MatchIsFound(s, x, i, k, j);
    }
    if FindSuffix(s, x).Some? {
      FoundIsMatch(s, x);
    }
  }

  /** `re.sub(pattern, '', s)`: the one match is cut out (a second match
      cannot follow it, since a match reaches the end). */
  function SubSuffix(s: string, x: Suffix): (r: string)
    ensures forall c :: c in r ==> c in s
  {
    match FindSuffix(s, x)
    case None => s
    case Some((i, _, j)) => s[..i] + s[j..]
  }

  /** With no match the name is unchanged. */
  lemma SubSuffixNoMatch(s: string, x: Suffix)
    requires ProperWord(x.word)
    requires forall i: nat, k: nat, j: nat :: !MatchAt(s, x, i, k, j)
    ensures SubSuffix(s, x) == s
  {
    FindSuffixMatches(s, x);
  }

  /** The leftmost match is the part removed. */
  lemma SubSuffixLeftmost(s: string, x: Suffix, i: nat, k: nat, j: nat)
    requires ProperWord(x.word) && MatchAt(s, x, i, k, j)
    requires forall i': nat, k': nat, j': nat :: MatchAt(s, x, i', k', j') ==> i <= i'
    ensures SubSuffix(s, x) == s[..i] + s[j..]
  {
    FindSuffixMatches(s, x);
  }

  /** A name ending in whitespace `s[i..k]` and the suffix word `s[k..]`,
      with no whitespace before `i`, loses exactly those. */
  lemma SubSuffixStripsWord(s: string, x: Suffix, i: nat, k: nat)
    requires ProperWord(x.word) && i < k <= |s| && AllSpace(s[i..k])
    requires s[k..] == x.word || (x.dot && s[k..] == x.word + ".")
    requires i == 0 || !IsSpace(s[i - 1])
    ensures SubSuffix(s, x) == s[..i]
  {
    assert s[k..|s|] == s[k..];
    MatchIsFound(s, x, i, k, |s|);
    FoundIsMatch(s, x);
    var (i0, k0, j0) := FindSuffix(s, x).value;
    assert AllSpace(s[i0..k]);
    assert i0 == i && j0 == |s|;
  }

  /** A name without whitespace matches no suffix pattern. */
  lemma NoSpaceNoMatch(s: string, x: Suffix)
    requires ProperWord(x.word) && NoSpace(s)
    ensures SubSuffix(s, x) == s
  {
    forall i: nat, k: nat, j: nat ensures !MatchAt(s, x, i, k, j) {
      if i < k <= |s| {
        assert s[i..k][0] == s[i];
      }
    }
    SubSuffixNoMatch(s, x);
  }

  /** A name whose last character cannot end a match is unchanged. */
  lemma OtherEndingNoMatch(s: string, x: Suffix)
    requires ProperWord(x.word) && s != []
    requires s[|s| - 1] != '\n' && s[|s| - 1] != '.' && s[|s| - 1] != x.word[|x.word| - 1]
    ensures SubSuffix(s, x) == s
  {
    forall i: nat, k: nat, j: nat ensures !MatchAt(s, x, i, k, j) {
      if k < j == |s| {
        var w := s[k..j];
        assert w[|w| - 1] == s[|s| - 1];
      }
    }
    SubSuffixNoMatch(s, x);
  }

  /** The patterns applied one after the other, each once, in order. */
  function StripSuffixes(s: string, xs: seq<Suffix>): (r: string)
    ensures forall c :: c in r ==> c in s
  {
    if xs == [] then s else StripSuffixes(SubSuffix(s, xs[0]), xs[1..])
  }

  /** A name without whitespace goes through every pattern unchanged. */
  lemma {:induction false} NoSpaceStripsNothing(s: string, xs: seq<Suffix>)
    requires NoSpace(s) && forall k :: 0 <= k < |xs| ==> ProperWord(xs[k].word)
    ensures StripSuffixes(s, xs) == s
  {
    if xs != [] {
      NoSpaceNoMatch(s, xs[0]);
      NoSpaceStripsNothing(s, xs[1..]);
    }
  }

  /** `re.sub(r'[^\w\s]', '', s)`: the characters kept are the word and space
      ones, and the text is unchanged exactly when it has no other kind. */
  function DropSymbols(s: string): (r: string)
    ensures forall c :: c in r ==> c in s && Keep(c)
    ensures r == s <==> forall c :: c in s ==> Keep(c)
  {
    if s == [] then []
    else
      assert s == [s[0]] + s[1..];
      (if Keep(s[0]) then [s[0]] else []) + DropSymbols(s[1..])
  }

  /** No whitespace at either end, every whitespace character a space, and
      never two whitespace characters in a row. */
  predicate SingleSpaced(r: string) {
    (r == [] || (!IsSpace(r[0]) && !IsSpace(r[|r| - 1])))
    && (forall i :: 0 <= i < |r| && IsSpace(r[i]) ==> r[i] == ' ')
    && (forall i, j :: 0 <= i < |r| && 0 <= j < |r| && j == i + 1 ==> !IsSpace(r[i]) || !IsSpace(r[j]))
  }

  /** `' '.join(name.split())` followed by `.strip()`. */
  function Squash(s: string): string
  {
    Strip(JoinSpace(SplitWs(s)))
  }

  /** `clean_company_name`; `None` stands for a missing (NaN) name. */
  function CleanName(name: Option<string>): string
  {
    match name
    case None => ""
    case Some(s) => Squash(DropSymbols(StripSuffixes(Lower(s), Suffixes)))
  }

  /** The loop of `clean_company_name`, proved against `CleanName`. */
  method CleanCompanyName(name: Option<string>) returns (r: string)
    ensures r == CleanName(name)
    ensures name.None? ==> r == ""
    ensures SingleSpaced(r) && forall c :: c in r ==> c == ' ' || NameChar(c)
  {
    CleanShape(name);
    if name.None? {
      return "";
    }
    var s := Lower(name.value);
    assert Suffixes[0..] == Suffixes;
    for k := 0 to |Suffixes|
      invariant StripSuffixes(s, Suffixes[k..]) == StripSuffixes(Lower(name.value), Suffixes)
    {
      assert Suffixes[k..][1..] == Suffixes[k + 1..];
      s := SubSuffix(s, Suffixes[k]);
    }
    assert Suffixes[|Suffixes|..] == [];
    s := DropSymbols(s);
    s := JoinSpace(SplitWs(s));
    r := Strip(s);
  }

  /** Every piece of `str.split()` is made of characters of the text. */
  lemma {:induction false} SplitWsWithin(s: string)
    ensures forall k, c :: 0 <= k < |SplitWs(s)| && c in SplitWs(s)[k] ==> c in s
    decreases |s|
  {
    var t := LStrip(s);
    if t != [] {
      LeadingSpaceMaximal(s);
      var w := TakeWord(t);
      SplitWsWithin(t[|w|..]);
      var rest := SplitWs(t[|w|..]);
      assert SplitWs(s) == [w] + rest;
      forall k, c | 0 <= k < |SplitWs(s)| && c in SplitWs(s)[k] ensures c in s {
        if k > 0 {
          assert SplitWs(s)[k] == rest[k - 1];
          assert c in t[|w|..];
        }
        assert c in t;
      }
    }
  }

  /** Joining non-empty runs without whitespace gives a single-spaced text. */
  lemma {:induction false} JoinSpaceSingle(parts: seq<string>)
    requires forall k :: 0 <= k < |parts| ==> parts[k] != [] && NoSpace(parts[k])
    ensures SingleSpaced(JoinSpace(parts))
    ensures parts != [] ==> JoinSpace(parts) != []
  {
    if |parts| > 1 {
      var p := parts[0];
      var tail := parts[1..];
      assert forall k :: 0 <= k < |tail| ==> tail[k] == parts[k + 1];
      JoinSpaceSingle(tail);
      var j := JoinSpace(tail);
      var r := JoinSpace(parts);
      assert r == p + " " + j;
      assert r[0] == p[0] && r[|r| - 1] == j[|j| - 1];
      forall i | 0 <= i < |r| && IsSpace(r[i]) ensures r[i] == ' ' {
        if i > |p| { assert r[i] == j[i - |p| - 1]; }
      }
      forall i, k | 0 <= i < |r| && 0 <= k < |r| && k == i + 1 ensures !IsSpace(r[i]) || !IsSpace(r[k]) {
        if i < |p| {
          assert r[i] == p[i];
        } else if i == |p| {
          assert r[k] == j[0];
        } else {
          assert r[i] == j[i - |p| - 1] && r[k] == j[k - |p| - 1];
        }
      }
    }
  }

  /** Joining runs of name characters with spaces adds only spaces. */
  lemma {:induction false} JoinSpaceChars(parts: seq<string>)
    requires forall k, c :: 0 <= k < |parts| && c in parts[k] ==> NameChar(c)
    ensures forall c :: c in JoinSpace(parts) ==> c == ' ' || NameChar(c)
  {
    if |parts| > 1 {
      var tail := parts[1..];
      assert forall k :: 0 <= k < |tail| ==> tail[k] == parts[k + 1];
      JoinSpaceChars(tail);
      assert JoinSpace(parts) == parts[0] + " " + JoinSpace(tail);
    }
  }

  /** The visible characters of a cleaned name are lower-case word characters,
      separated by single spaces. */
  lemma CleanShape(name: Option<string>)
    ensures SingleSpaced(CleanName(name))
    ensures forall c :: c in CleanName(name) ==> c == ' ' || NameChar(c)
  {
    if name.Some? {
      var d := DropSymbols(StripSuffixes(Lower(name.value), Suffixes));
      var parts := SplitWs(d);
      SplitWsWords(d);
      SplitWsWithin(d);
      forall k, c | 0 <= k < |parts| && c in parts[k] ensures NameChar(c) {
        var i :| 0 <= i < |parts[k]| && parts[k][i] == c;
        assert !IsSpace(c);
        assert c in d;
        var low := Lower(name.value);
        assert c in low;
        var m :| 0 <= m < |low| && low[m] == c;
      }
      JoinSpaceSingle(parts);
      JoinSpaceChars(parts);
      StripStripped(JoinSpace(parts));
    }
  }

  lemma {:induction false} NonSpaceOfWord(w: string)
    requires NoSpace(w)
    ensures NonSpace(w) == w
    decreases |w|
  {
    if w != [] { NonSpaceOfWord(w[1..]); }
  }

  /** Leading whitespace is invisible. */
  lemma LStripKeepsVisible(s: string)
    ensures NonSpace(LStrip(s)) == NonSpace(s)
  {
    var n := LeadingSpace(s);
    LeadingSpaceMaximal(s);
    assert s == s[..n] + LStrip(s);
    NonSpaceAppend(s[..n], LStrip(s));
    NonSpaceOfSpace(s[..n]);
  }

  /** Joining a word in front adds exactly that word's characters. */
  lemma JoinConsVisible(w: string, tail: seq<string>)
    requires NoSpace(w)
    ensures NonSpace(JoinSpace([w] + tail)) == w + NonSpace(JoinSpace(tail))
  {
    NonSpaceOfWord(w);
    assert ([w] + tail)[0] == w && ([w] + tail)[1..] == tail;
    if tail != [] {
      NonSpaceAppend(w + " ", JoinSpace(tail));
      NonSpaceAppend(w, " ");
    }
  }

  /** One step of `str.split()`: the first word, then the split of the rest. */
  lemma SplitWsStep(s: string) returns (w: string, rest: string)
    requires LStrip(s) != []
    ensures SplitWs(s) == [w] + SplitWs(rest)
    ensures LStrip(s) == w + rest && w != [] && NoSpace(w) && |rest| < |s|
    ensures rest == [] || IsSpace(rest[0])
  {
    var t := LStrip(s);
    LeadingSpaceMaximal(s);
    w := TakeWord(t);
    rest := t[|w|..];
    assert t == w + rest;
  }

  /** Collapsing whitespace loses no visible character. */
  lemma {:induction false} SquashKeepsVisible(s: string)
    ensures NonSpace(JoinSpace(SplitWs(s))) == NonSpace(s)
    decreases |s|
  {
    LStripKeepsVisible(s);
    if LStrip(s) != [] {
      var w, rest := SplitWsStep(s);
      SquashKeepsVisible(rest);
      JoinConsVisible(w, SplitWs(rest));
      NonSpaceAppend(w, rest);
      NonSpaceOfWord(w);
    }
  }

  /** The final `strip()` never changes anything. */
  lemma SquashIsJoin(s: string)
    ensures Squash(s) == JoinSpace(SplitWs(s))
  {
    SplitWsWords(s);
    JoinSpaceSingle(SplitWs(s));
    StripStripped(JoinSpace(SplitWs(s)));
  }

  /** Collapsing whitespace keeps every visible character, in order. */
  lemma SquashVisible(s: string)
    ensures NonSpace(Squash(s)) == NonSpace(s)
  {
    SquashIsJoin(s);
    SquashKeepsVisible(s);
  }

  /** Cleaning depends only on the lower-cased name: `lower()` comes first. */
  lemma CaseInsensitive(s: string)
    ensures CleanName(Some(s)) == CleanName(Some(Lower(s)))
  {
    assert Lower(Lower(s)) == Lower(s);
  }

  /** A single leading space does not change the split. */
  lemma SplitWsAfterSpace(rest: string)
    requires |rest| > 1 && IsSpace(rest[0]) && !IsSpace(rest[1])
    ensures SplitWs(rest) == SplitWs(rest[1..])
  {
    assert LeadingSpace(rest[1..]) == 0;
    assert LStrip(rest) == rest[1..] == LStrip(rest[1..]);
  }

  lemma JoinAfterWord(w: string, tail: seq<string>)
    requires tail != []
    ensures JoinSpace([w] + tail) == w + " " + JoinSpace(tail)
  {
    assert ([w] + tail)[1..] == tail;
  }

  /** The first word ends at the first whitespace. */
  lemma {:induction false} TakeWordPrefix(w: string, rest: string)
    requires NoSpace(w) && rest != [] && IsSpace(rest[0])
    ensures TakeWord(w + rest) == w
    decreases |w|
  {
    if w == [] {
      assert w + rest == rest;
    } else {
      assert (w + rest)[1..] == w[1..] + rest;
      TakeWordPrefix(w[1..], rest);
    }
  }

  /** A joined text starts with its first word. */
  lemma {:induction false} JoinSpaceStart(parts: seq<string>)
    requires parts != [] && parts[0] != []
    ensures JoinSpace(parts) != [] && JoinSpace(parts)[0] == parts[0][0]
  {
  }

  /** `str.split()` on a word followed by whitespace or nothing. */
  lemma SplitWsCons(w: string, rest: string)
    requires w != [] && NoSpace(w) && (rest == [] || IsSpace(rest[0]))
    ensures SplitWs(w + rest) == [w] + SplitWs(rest)
  {
    var s := w + rest;
    assert s[0] == w[0];
    assert LStrip(s) == s;
    if rest == [] {
      assert s == w;
      TakeWordAll(w);
    } else {
      TakeWordPrefix(w, rest);
    }
    assert s[|w|..] == rest;
  }

  /** `str.split()` undoes `' '.join` on non-empty words without whitespace. */
  lemma {:induction false} SplitJoin(parts: seq<string>)
    requires forall k :: 0 <= k < |parts| ==> parts[k] != [] && NoSpace(parts[k])
    ensures SplitWs(JoinSpace(parts)) == parts
  {
    if parts == [] {
      assert SplitWs([]) == [];
    } else if |parts| == 1 {
      SplitWsWord(parts[0]);
    } else {
      var p, tail := parts[0], parts[1..];
      assert forall k :: 0 <= k < |tail| ==> tail[k] == parts[k + 1];
      SplitJoin(tail);
      var j := JoinSpace(tail);
      assert JoinSpace(parts) == p + (" " + j);
      assert SplitWs(" " + j) == tail by {
        JoinSpaceStart(tail);
        SplitWsAfterSpace(" " + j);
        assert (" " + j)[1..] == j;
      }
      SplitWsCons(p, " " + j);
      assert parts == [p] + tail;
    }
  }

  /** Collapsing whitespace twice is collapsing it once. */
  lemma SquashIdempotent(s: string)
    ensures Squash(Squash(s)) == Squash(s)
  {
    SquashIsJoin(s);
    SplitWsWords(s);
    SplitJoin(SplitWs(s));
    SquashIsJoin(Squash(s));
  }

  lemma LowerAppend(a: string, b: string)
    ensures Lower(a + b) == Lower(a) + Lower(b)
  {
    assert forall i :: 0 <= i < |a + b| ==> Lower(a + b)[i] == (Lower(a) + Lower(b))[i];
  }

  /** A single word of `\w` characters keeps its characters, lower-cased. */
  lemma LowerWord(w: string)
    requires w != [] && forall i :: 0 <= i < |w| ==> IsWordChar(w[i])
    ensures Lower(w) != [] && NoSpace(Lower(w)) && !IsSpace(Lower(w)[|w| - 1])
    ensures forall c :: c in Lower(w) ==> Keep(c)
    ensures DropSymbols(Lower(w)) == Lower(w)
  {
    var lw := Lower(w);
    forall c | c in lw ensures Keep(c) {
      var i :| 0 <= i < |lw| && lw[i] == c;
      assert IsWordChar(w[i]);
    }
  }

  lemma SuffixesProper()
    ensures forall k :: 0 <= k < |Suffixes| ==> ProperWord(Suffixes[k].word)
  {
  }

  lemma StripCons(s: string, x: Suffix, xs: seq<Suffix>)
    ensures StripSuffixes(s, [x] + xs) == StripSuffixes(SubSuffix(s, x), xs)
  {
    assert ([x] + xs)[1..] == xs;
  }

  /** `StripSuffixes` over a list of seven patterns is seven substitutions in turn. */
  lemma StripSeven(s: string, a: Suffix, b: Suffix, c: Suffix, d: Suffix, e: Suffix, f: Suffix, g: Suffix)
    ensures StripSuffixes(s, [a, b, c, d, e, f, g]) ==
      SubSuffix(SubSuffix(SubSuffix(SubSuffix(SubSuffix(SubSuffix(SubSuffix(
        s, a), b), c), d), e), f), g)
  {
    var s1 := SubSuffix(s, a);
    var s2 := SubSuffix(s1, b);
    var s3 := SubSuffix(s2, c);
    var s4 := SubSuffix(s3, d);
    var s5 := SubSuffix(s4, e);
    var s6 := SubSuffix(s5, f);
    StripCons(s, a, [b, c, d, e, f, g]);
    StripCons(s1, b, [c, d, e, f, g]);
    StripCons(s2, c, [d, e, f, g]);
    StripCons(s3, d, [e, f, g]);
    StripCons(s4, e, [f, g]);
    StripCons(s5, f, [g]);
    StripCons(s6, g, []);
  }

  /** `StripSuffixes` over the script's list is the seven substitutions in turn. */
  lemma StripChain(s: string)
    ensures StripSuffixes(s, Suffixes) ==
      SubSuffix(SubSuffix(SubSuffix(SubSuffix(SubSuffix(SubSuffix(SubSuffix(
        s, Inc), Corp), Corporation), Ltd), Llc), Co), Company)
  {
    StripSeven(s, Inc, Corp, Corporation, Ltd, Llc, Co, Company);
  }

  /** A name ending in `o` is left alone by the first five patterns. */
  lemma EndsInO(s: string)
    requires s != [] && s[|s| - 1] == 'o'
    ensures SubSuffix(s, Inc) == s && SubSuffix(s, Corp) == s && SubSuffix(s, Corporation) == s
    ensures SubSuffix(s, Ltd) == s && SubSuffix(s, Llc) == s
  {
    OtherEndingNoMatch(s, Inc);
    OtherEndingNoMatch(s, Corp);
    OtherEndingNoMatch(s, Corporation);
    OtherEndingNoMatch(s, Ltd);
    OtherEndingNoMatch(s, Llc);
  }

  /** A single lower-cased word is its own cleaned form once no suffix is left. */
  lemma FinishWord(lw: string)
    requires lw != [] && NoSpace(lw) && DropSymbols(lw) == lw
    ensures Squash(DropSymbols(lw)) == lw
  {
    SplitWsWord(lw);
    StripStripped(lw);
  }

  /** A name that ends in a space and the suffix word loses exactly those two. */
  lemma StripWordAfter(p: string, t: string, x: Suffix)
    requires ProperWord(x.word) && (t == x.word || (x.dot && t == x.word + "."))
    requires p == [] || !IsSpace(p[|p| - 1])
    ensures SubSuffix(p + " " + t, x) == p
  {
    var s := p + " " + t;
    assert s[|p|..|p| + 1] == " " && s[|p| + 1..] == t && s[..|p|] == p;
    assert |p| > 0 ==> s[|p| - 1] == p[|p| - 1];
    SubSuffixStripsWord(s, x, |p|, |p| + 1);
  }

  /** The texts of the examples below, regrouped. */
  lemma ExampleTexts(p: string)
    ensures p + " inc." == p + " " + "inc."
    ensures p + " co inc" == (p + " co") + " " + "inc" && p + " co" == p + " " + "co"
    ensures p + " inc co" == (p + " inc") + " " + "co" && p + " inc" == p + " " + "inc"
    ensures (p + " co")[|p + " co"| - 1] == 'o' && (p + " inc co")[|p + " inc co"| - 1] == 'o'
    ensures (p + " inc")[|p + " inc"| - 1] == 'c'
  {
  }

  /** The facts about a lower-cased word the examples use. */
  lemma LowerWordFacts(w: string, tail: string, lowTail: string)
    requires w != [] && forall i :: 0 <= i < |w| ==> IsWordChar(w[i])
    requires Lower(tail) == lowTail
    ensures Lower(w) != [] && NoSpace(Lower(w)) && !IsSpace(Lower(w)[|w| - 1])
    ensures DropSymbols(Lower(w)) == Lower(w)
    ensures Lower(w + tail) == Lower(w) + lowTail
  {
    LowerWord(w);
    LowerAppend(w, tail);
  }

  /** A one-word name with the suffix `Inc.` comes out as that word,
      lower-cased: "Apple Inc." gives "apple". */
  lemma CleanWordInc(w: string)
    requires w != [] && forall i :: 0 <= i < |w| ==> IsWordChar(w[i])
    ensures CleanName(Some(w + " Inc.")) == Lower(w)
  {
    var lw := Lower(w);
    assert Lower(" Inc.") == " inc.";
    LowerWordFacts(w, " Inc.", " inc.");
    assert StripSuffixes(lw + " inc.", Suffixes) == lw by {
      ExampleTexts(lw);
      StripWordAfter(lw, "inc.", Inc);
      SuffixesProper();
      NoSpaceStripsNothing(lw, Suffixes[1..]);
    }
    FinishWord(lw);
  }

  /** Suffixes come off one after the other: "Acme Co Inc" gives "acme". */
  lemma SuffixesInSequence(w: string)
    requires w != [] && forall i :: 0 <= i < |w| ==> IsWordChar(w[i])
    ensures CleanName(Some(w + " Co Inc")) == Lower(w)
  {
    var lw := Lower(w);
    assert Lower(" Co Inc") == " co inc";
    LowerWordFacts(w, " Co Inc", " co inc");
    var s0, s1 := lw + " co inc", lw + " co";
    assert StripSuffixes(s0, Suffixes) == lw by {
      ExampleTexts(lw);
      StripWordAfter(s1, "inc", Inc);
      EndsInO(s1);
      StripWordAfter(lw, "co", Co);
      NoSpaceNoMatch(lw, Company);
      StripChain(s0);
    }
    FinishWord(lw);
  }

  /** Each pattern is tried once, in list order: in "Acme Inc Co" the `inc`
      pattern runs before `co` is removed, so "acme inc" is the result. */
  lemma SuffixesTriedOnce(w: string)
    requires w != [] && forall i :: 0 <= i < |w| ==> IsWordChar(w[i])
    ensures CleanName(Some(w + " Inc Co")) == Lower(w) + " inc"
  {
    var lw := Lower(w);
    assert Lower(" Inc Co") == " inc co";
    LowerWordFacts(w, " Inc Co", " inc co");
    IncThenCo(lw);
    WordThenInc(lw);
  }

  /** Only `co` matches "<word> inc co", and nothing matches after it. */
  lemma IncThenCo(lw: string)
    requires lw != [] && NoSpace(lw)
    ensures StripSuffixes(lw + " inc co", Suffixes) == lw + " inc"
  {
    var s0, s1 := lw + " inc co", lw + " inc";
    assert SubSuffix(s0, Inc) == s0 && SubSuffix(s0, Corp) == s0 && SubSuffix(s0, Corporation) == s0
      && SubSuffix(s0, Ltd) == s0 && SubSuffix(s0, Llc) == s0 by {
      ExampleTexts(lw);
      EndsInO(s0);
    }
    assert SubSuffix(s0, Co) == s1 by {
      ExampleTexts(lw);
      StripWordAfter(s1, "co", Co);
    }
    assert SubSuffix(s1, Company) == s1 by {
      ExampleTexts(lw);
      OtherEndingNoMatch(s1, Company);
    }
    StripChain(s0);
  }

  /** A word followed by " inc" has no symbol to drop. */
  lemma IncKept(lw: string)
    requires DropSymbols(lw) == lw
    ensures DropSymbols(lw + " inc") == lw + " inc"
  {
    var s1 := lw + " inc";
    forall c | c in s1 ensures Keep(c) {
      var i :| 0 <= i < |s1| && s1[i] == c;
      if i < |lw| {
        assert s1[i] == lw[i];
      } else {
        assert c == ' ' || c == 'i' || c == 'n' || c == 'c';
      }
    }
  }

  /** " inc" after a word splits back into the word and "inc". */
  lemma IncSplit(lw: string)
    requires lw != [] && NoSpace(lw)
    ensures SplitWs(lw + " inc") == [lw, "inc"]
    ensures JoinSpace([lw, "inc"]) == lw + " inc"
  {
    var inc := "inc";
    assert NoSpace(inc) by {
      forall i | 0 <= i < |inc| ensures !IsSpace(inc[i]) {
        assert inc[i] == 'i' || inc[i] == 'n' || inc[i] == 'c';
      }
    }
    assert JoinSpace([lw, inc]) == lw + " inc" by {
      JoinAfterWord(lw, [inc]);
      ExampleTexts(lw);
    }
    SplitJoin([lw, inc]);
  }

  /** A word followed by " inc" is already clean. */
  lemma WordThenInc(lw: string)
    requires lw != [] && NoSpace(lw) && DropSymbols(lw) == lw
    ensures Squash(DropSymbols(lw + " inc")) == lw + " inc"
  {
    IncKept(lw);
    IncSplit(lw);
    SquashIsJoin(lw + " inc");
  }
}
