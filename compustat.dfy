/** The identifier helpers, the firm-matching rule and the fundamentals query of
    the Compustat controls pull (`src/data/pull_compustat_controls.py`). */
module Compustat {
  import opened Common
  import opened Text

  /** A whole number a float holds exactly and `str` renders with a ".0"
      tail: from 10^16 on, Python writes an exponent instead. */
  type FloatWhole = w: nat | w < 10_000_000_000_000_000

  /** A pandas cell as the helpers receive it. */
  datatype Cell =
    | Null                // Python `None`
    | NaN                 // a missing value read into a numeric column
    | Str(s: string)
    | Int(i: int)
    | Float(whole: FloatWhole)   // a whole-number float, such as 320193.0

  /** `str(x)`. */
  function Render(x: Cell): string
  {
    match x
    case Null => "None"
    case NaN => "nan"
    case Str(s) => s
    case Int(i) => if i < 0 then "-" + NatToString(-i) else NatToString(i)
    case Float(w) => NatToString(w) + ".0"
  }

  predicate AllDigits(s: string) { forall i :: 0 <= i < |s| ==> IsDigit(s[i]) }

  /** `re.sub(r"\D", "", s)`: the digits of `s`, in order. */
  function Digits(s: string): (r: string)
    ensures |r| <= |s| && AllDigits(r)
  {
    if s == [] then [] else (if IsDigit(s[0]) then [s[0]] else []) + Digits(s[1..])
  }

  lemma {:induction false} DigitsOfDigits(s: string)
    requires AllDigits(s)
    ensures Digits(s) == s
  {
    if s != [] {
      DigitsOfDigits(s[1..]);
    }
  }

  lemma {:induction false} DigitsAppend(a: string, b: string)
    ensures Digits(a + b) == Digits(a) + Digits(b)
  {
    if a == [] {
      assert a + b == b;
    } else {
      var h := if IsDigit(a[0]) then [a[0]] else [];
      assert (a + b)[0] == a[0] && (a + b)[1..] == a[1..] + b;
      assert Digits(a + b) == h + Digits(a[1..] + b);
      DigitsAppend(a[1..], b);
      assert h + (Digits(a[1..]) + Digits(b)) == (h + Digits(a[1..])) + Digits(b);
    }
  }

  function Zeros(n: nat): (r: string)
    ensures |r| == n && forall i :: 0 <= i < n ==> r[i] == '0'
  {
    seq(n, i => '0')
  }

  /** `s.zfill(width)` for a string without a sign. */
  function ZFill(s: string, width: nat): string
  {
    if |s| >= width then s else Zeros(width - |s|) + s
  }

  const CikWidth: nat := 10

  /** `normalize_cik`: no CIK for `None`; otherwise the digits of `str(x)`,
      left-padded with zeros to ten places, or no CIK when there are none. */
  function NormalizeCik(x: Cell): (r: string)
    ensures r == [] || (|r| >= CikWidth && AllDigits(r))
    ensures r == [] <==> x.Null? || Digits(Render(x)) == []
  {
    if x.Null? then "" else
      var d := Digits(Render(x));
      if d == [] then "" else ZFill(d, CikWidth)
  }

  /** The padding only adds zeros in front of the digits, and only up to ten places. */
  lemma CikPadsDigits(x: Cell)
    requires !x.Null? && Digits(Render(x)) != []
    ensures var d, r := Digits(Render(x)), NormalizeCik(x);
      |r| == (if |d| >= CikWidth then |d| else CikWidth)
      && r == Zeros(|r| - |d|) + d
  {
    var d, r := Digits(Render(x)), NormalizeCik(x);
    assert r == ZFill(d, CikWidth);
    if |d| >= CikWidth {
      assert r == d && Zeros(0) + d == d;
    } else {
      assert r == Zeros(CikWidth - |d|) + d && |r| == CikWidth;
    }
  }

  /** Normalising a normalised CIK changes nothing, so the second pass over
      the merged controls keeps every CIK the crosswalk produced. */
  lemma CikIdempotent(x: Cell)
    ensures NormalizeCik(Str(NormalizeCik(x))) == NormalizeCik(x)
  {
    var r := NormalizeCik(x);
    if r != [] {
      DigitsOfDigits(r);
    }
  }

  /** Leading zeros do not change a decimal value. */
  lemma {:induction false} ZerosValue(n: nat, d: string)
    requires AllDigits(d)
    ensures AllDigits(Zeros(n) + d) && DecimalValue(Zeros(n) + d) == DecimalValue(d)
    decreases n + |d|
  {
    var s := Zeros(n) + d;
    if d == [] {
      assert s == Zeros(n);
      if n > 0 {
        assert s[..|s| - 1] == Zeros(n - 1) + [];
        ZerosValue(n - 1, []);
      }
    } else {
      var front := d[..|d| - 1];
      assert s[..|s| - 1] == Zeros(n) + front;
      ZerosValue(n, front);
    }
  }

  /** An integer CIK keeps its value. */
  lemma CikOfInt(n: nat)
    ensures NormalizeCik(Int(n)) == ZFill(NatToString(n), CikWidth)
    ensures DecimalValue(NormalizeCik(Int(n))) == n
  {
    var d := NatToString(n);
    assert Digits(Render(Int(n))) == d by {
      DigitsOfDigits(d);
    }
    assert DecimalValue(ZFill(d, CikWidth)) == n by {
      if |d| < CikWidth {
        ZerosValue(CikWidth - |d|, d);
      }
    }
  }

  /** A CIK read as a whole-number float (a numeric column with a blank cell)
      is rendered "320193.0", whose digits carry an extra trailing zero. */
  lemma FloatCikDigits(w: FloatWhole)
    ensures Digits(Render(Float(w))) == NatToString(w) + "0"
  {
    var d := NatToString(w);
    DigitsOfDigits(d);
    DigitsAppend(d, ".0");
    assert Digits(".0") == "0" by {
      assert ".0"[1..] == "0" && "0"[1..] == [];
    }
  }

  /** As written, a float CIK is normalised to ten times its value. */
  lemma FloatCikTenfold(w: FloatWhole)
    ensures DecimalValue(NormalizeCik(Float(w))) == 10 * w
  {
    var d := NatToString(w) + "0";
    FloatCikDigits(w);
    assert d[..|d| - 1] == NatToString(w);
    assert DecimalValue(d) == 10 * w;
    if |d| < CikWidth {
      ZerosValue(CikWidth - |d|, d);
    }
  }

  /** As written, a firm whose listed CIK was read as a float never meets the
      same CIK coming from Compustat as text. */
  lemma FloatCikMisses(w: FloatWhole)
    requires w > 0
    ensures NormalizeCik(Float(w)) != NormalizeCik(Str(NatToString(w)))
  {
    FloatCikTenfold(w);
    CikOfInt(w);
    assert Render(Str(NatToString(w))) == Render(Int(w));
  }

  /** `normalize_cik` with a whole-number float read as the integer it holds. */
  function NormalizeCikFixed(x: Cell): (r: string)
    ensures !x.Float? ==> r == NormalizeCik(x)
  {
    NormalizeCik(if x.Float? then Int(x.whole) else x)
  }

  /** Corrected, a float CIK meets the same CIK given as text. */
  lemma FloatCikMatches(w: FloatWhole)
    ensures NormalizeCikFixed(Float(w)) == NormalizeCik(Str(NatToString(w)))
    ensures DecimalValue(NormalizeCikFixed(Float(w))) == w
  {
    CikOfInt(w);
    assert Render(Str(NatToString(w))) == Render(Int(w));
  }

  /** `normalize_ticker`: no ticker for `None`; otherwise `str(x)` upper-cased and stripped. */
  function NormalizeTicker(x: Cell): (r: string)
    ensures r == [] || (!IsSpace(r[0]) && !IsSpace(r[|r| - 1]))
  {
    if x.Null? then "" else Strip(Upper(Render(x)))
  }

  /** Stripping an upper-cased string leaves no lower-case letter. */
  lemma StripUpperNoLower(s: string)
    ensures forall k :: 0 <= k < |Strip(Upper(s))| ==> !IsLowerLetter(Strip(Upper(s))[k])
  {
    var u := Upper(s);
    var i := StripShape(u);
    assert forall k :: 0 <= k < |Strip(u)| ==> Strip(u)[k] == u[i + k];
  }

  /** A normalised ticker has no lower-case letter and is its own normal form. */
  lemma TickerIdempotent(x: Cell)
    ensures forall i :: 0 <= i < |NormalizeTicker(x)| ==> !IsLowerLetter(NormalizeTicker(x)[i])
    ensures NormalizeTicker(Str(NormalizeTicker(x))) == NormalizeTicker(x)
  {
    var r := NormalizeTicker(x);
    if !x.Null? {
      StripUpperNoLower(Render(x));
    }
    assert Upper(r) == r;
    StripStripped(r);
  }

  /** The Compustat side of the match (`fillna("")`, then upper-case and strip). */
  function CompTicker(x: Cell): (r: string)
    ensures x.Null? || x.NaN? ==> r == ""
  {
    if x.Null? || x.NaN? then "" else Strip(Upper(Render(x)))
  }

  /** Both sides normalise a present ticker the same way; a missing one is blank
      on the Compustat side but "NAN" in the firm list. */
  lemma TickersAgree(x: Cell)
    ensures !x.NaN? ==> CompTicker(x) == NormalizeTicker(x)
    ensures x.NaN? ==> NormalizeTicker(x) == "NAN" && CompTicker(x) == ""
  {
    if x.NaN? {
      assert Upper("nan") == "NAN";
      StripStripped("NAN");
    }
  }

  // ---------------------------------------------------------------------------
  // Matching Compustat companies to the firm list

  /** The non-blank identifiers of the firm list (`set([c for c in ... if c])`). */
  function Universe(col: seq<string>): (u: set<string>)
    ensures "" !in u
    ensures forall i :: 0 <= i < |col| && col[i] != "" ==> col[i] in u
  {
    set c | c in col && c != ""
  }

  datatype MatchKey = ByCik | ByTicker | ByName

  /** The `match_key` of a kept Compustat row: its CIK if the firm list has
      it, else its ticker, else its name. */
  function KeyOf(cik: string, ticker: string, ciks: set<string>, tics: set<string>): MatchKey
  {
    if cik in ciks then ByCik else if ticker in tics then ByTicker else ByName
  }

  datatype CompRow = CompRow(gvkey: string, cik: string, ticker: string, name: string)

  /** The CIK-or-ticker filter over Compustat's company table. */
  predicate Hit(row: CompRow, ciks: set<string>, tics: set<string>) {
    row.cik in ciks || row.ticker in tics
  }

  /** A row passes the filter exactly when its key is a CIK or a ticker key,
      and a row with neither a CIK nor a ticker is never a hit. */
  lemma HitIffKeyed(row: CompRow, ciks: seq<string>, tics: seq<string>)
    ensures Hit(row, Universe(ciks), Universe(tics))
      <==> KeyOf(row.cik, row.ticker, Universe(ciks), Universe(tics)) != ByName
    ensures row.cik == "" && row.ticker == "" ==> !Hit(row, Universe(ciks), Universe(tics))
  {
  }

  function Hits(rows: seq<CompRow>, ciks: set<string>, tics: set<string>): (r: seq<CompRow>)
    ensures |r| <= |rows|
  {
    if rows == [] then [] else
      (if Hit(rows[0], ciks, tics) then [rows[0]] else []) + Hits(rows[1..], ciks, tics)
  }

  /** The name fallback: rows whose lower-cased Compustat name is a listed name. */
  function NameHits(rows: seq<CompRow>, names: set<string>): (r: seq<CompRow>)
    ensures |r| <= |rows|
  {
    if rows == [] then [] else
      (if Lower(rows[0].name) in names then [rows[0]] else []) + NameHits(rows[1..], names)
  }

  /** The rows the crosswalk is built from: the hits, or the name matches when there are none. */
  function Kept(rows: seq<CompRow>, ciks: set<string>, tics: set<string>, names: set<string>): seq<CompRow>
  {
    var hits := Hits(rows, ciks, tics);
    if hits == [] then NameHits(rows, names) else hits
  }

  /** The rows that reach the crosswalk, before its deduplication: the rows
      keyed by CIK, then the rows keyed by ticker whose ticker no CIK-keyed row has. */
  function Candidates(kept: seq<CompRow>, ciks: set<string>, tics: set<string>): (r: seq<CompRow>)
  {
    var haveCik := CikKeyed(kept, ciks, tics);
    haveCik + TickerKeyed(kept, ciks, tics, TickersOf(haveCik))
  }

  function CikKeyed(kept: seq<CompRow>, ciks: set<string>, tics: set<string>): (r: seq<CompRow>)
    ensures forall k :: 0 <= k < |r| ==> r[k] in kept && KeyOf(r[k].cik, r[k].ticker, ciks, tics) == ByCik
  {
    if kept == [] then [] else
      var rest := CikKeyed(kept[1..], ciks, tics);
      if KeyOf(kept[0].cik, kept[0].ticker, ciks, tics) == ByCik then [kept[0]] + rest else rest
  }

  function TickersOf(rows: seq<CompRow>): set<string>
  {
    set k | 0 <= k < |rows| :: rows[k].ticker
  }

  function TickerKeyed(kept: seq<CompRow>, ciks: set<string>, tics: set<string>, taken: set<string>): (r: seq<CompRow>)
    ensures forall k :: 0 <= k < |r| ==> r[k] in kept && KeyOf(r[k].cik, r[k].ticker, ciks, tics) == ByTicker
  {
    if kept == [] then [] else
      var rest := TickerKeyed(kept[1..], ciks, tics, taken);
      if KeyOf(kept[0].cik, kept[0].ticker, ciks, tics) == ByTicker && kept[0].ticker !in taken
      then [kept[0]] + rest else rest
  }

  /** Every row of the crosswalk was kept and matched by CIK or ticker. */
  lemma CandidatesKeyed(kept: seq<CompRow>, ciks: set<string>, tics: set<string>)
    ensures forall r :: r in Candidates(kept, ciks, tics) ==>
      r in kept && KeyOf(r.cik, r.ticker, ciks, tics) != ByName
  {
    var haveCik := CikKeyed(kept, ciks, tics);
    var haveTic := TickerKeyed(kept, ciks, tics, TickersOf(haveCik));
    forall r | r in haveCik + haveTic
      ensures r in kept && KeyOf(r.cik, r.ticker, ciks, tics) != ByName
    {
      if r in haveCik {
        var k :| 0 <= k < |haveCik| && haveCik[k] == r;
      } else {
        var k :| 0 <= k < |haveTic| && haveTic[k] == r;
      }
    }
  }

  /** No hit means every row is keyed by name. */
  lemma {:induction false} NoHitsNoKeys(rows: seq<CompRow>, ciks: set<string>, tics: set<string>, taken: set<string>)
    requires Hits(rows, ciks, tics) == []
    ensures forall r :: r in rows ==> KeyOf(r.cik, r.ticker, ciks, tics) == ByName
  {
    if rows != [] {
      assert !Hit(rows[0], ciks, tics);
      NoHitsNoKeys(rows[1..], ciks, tics, taken);
      assert forall r :: r in rows ==> r == rows[0] || r in rows[1..];
    }
  }

  /** Rows all keyed by name give no CIK-keyed and no ticker-keyed row. */
  lemma {:induction false} NameKeyedDropped(kept: seq<CompRow>, ciks: set<string>, tics: set<string>, taken: set<string>)
    requires forall r :: r in kept ==> KeyOf(r.cik, r.ticker, ciks, tics) == ByName
    ensures CikKeyed(kept, ciks, tics) == [] && TickerKeyed(kept, ciks, tics, taken) == []
  {
    if kept != [] {
      assert kept[0] in kept;
      assert forall r :: r in kept[1..] ==> r in kept;
      NameKeyedDropped(kept[1..], ciks, tics, taken);
    }
  }

  /** As written, the name fallback never reaches the crosswalk: when no row
      matches by CIK or ticker, every name match is keyed `name` and the
      crosswalk keeps only `cik` and `ticker` rows. */
  lemma NameFallbackLost(rows: seq<CompRow>, ciks: set<string>, tics: set<string>, names: set<string>)
    requires Hits(rows, ciks, tics) == []
    ensures Candidates(Kept(rows, ciks, tics, names), ciks, tics) == []
  {
    var kept := NameHits(rows, names);
    NoHitsNoKeys(rows, ciks, tics, {});
    NameHitsWithin(rows, names);
    NameKeyedDropped(kept, ciks, tics, {});
    NameKeyedDropped(kept, ciks, tics, TickersOf(CikKeyed(kept, ciks, tics)));
  }

  lemma {:induction false} NameHitsWithin(rows: seq<CompRow>, names: set<string>)
    ensures forall r :: r in NameHits(rows, names) ==> r in rows
  {
    if rows != [] {
      NameHitsWithin(rows[1..], names);
    }
  }

  /** The crosswalk with the name-keyed rows appended after the CIK and ticker rows. */
  function CandidatesFixed(kept: seq<CompRow>, ciks: set<string>, tics: set<string>): seq<CompRow>
  {
    Candidates(kept, ciks, tics) + NameKeyed(kept, ciks, tics)
  }

  function NameKeyed(kept: seq<CompRow>, ciks: set<string>, tics: set<string>): seq<CompRow>
  {
    if kept == [] then [] else
      var rest := NameKeyed(kept[1..], ciks, tics);
      if KeyOf(kept[0].cik, kept[0].ticker, ciks, tics) == ByName then [kept[0]] + rest else rest
  }

  lemma {:induction false} AllNameKeyed(kept: seq<CompRow>, ciks: set<string>, tics: set<string>)
    requires forall r :: r in kept ==> KeyOf(r.cik, r.ticker, ciks, tics) == ByName
    ensures NameKeyed(kept, ciks, tics) == kept
  {
    if kept != [] {
      assert kept[0] in kept;
      assert forall r :: r in kept[1..] ==> r in kept;
      AllNameKeyed(kept[1..], ciks, tics);
    }
  }

  /** Corrected, the name fallback yields exactly the name matches. */
  lemma NameFallbackKept(rows: seq<CompRow>, ciks: set<string>, tics: set<string>, names: set<string>)
    requires Hits(rows, ciks, tics) == []
    ensures CandidatesFixed(Kept(rows, ciks, tics, names), ciks, tics) == NameHits(rows, names)
  {
    var kept := NameHits(rows, names);
    NoHitsNoKeys(rows, ciks, tics, {});
    NameHitsWithin(rows, names);
    NameKeyedDropped(kept, ciks, tics, {});
    NameKeyedDropped(kept, ciks, tics, TickersOf(CikKeyed(kept, ciks, tics)));
    AllNameKeyed(kept, ciks, tics);
  }

  // ---------------------------------------------------------------------------
  // The fundamentals query

  /** `pd.notna(g)`. */
  predicate NotNa(g: Cell) { !g.Null? && !g.NaN? }

  /** A gvkey that survives the cleaning: present and not blank once stripped. */
  predicate Usable(g: Cell) { NotNa(g) && Strip(Render(g)) != "" }

  /** The gvkeys as stripped strings, the missing and blank ones dropped. */
  function CleanGvkeys(gs: seq<Cell>): (r: seq<string>)
    ensures |r| <= |gs|
  {
    if gs == [] then [] else
      (if Usable(gs[0]) then [Strip(Render(gs[0]))] else []) + CleanGvkeys(gs[1..])
  }

  /** Every cleaned gvkey is non-blank and stripped, every usable gvkey is among
      them, and there are none exactly when no gvkey is usable. */
  lemma CleanGvkeysSound(gs: seq<Cell>)
    ensures forall k :: 0 <= k < |CleanGvkeys(gs)| ==>
      CleanGvkeys(gs)[k] != "" && Strip(CleanGvkeys(gs)[k]) == CleanGvkeys(gs)[k]
    ensures forall i :: 0 <= i < |gs| && Usable(gs[i]) ==> Strip(Render(gs[i])) in CleanGvkeys(gs)
    ensures CleanGvkeys(gs) == [] <==> forall i :: 0 <= i < |gs| ==> !Usable(gs[i])
  {
    CleanGvkeysStripped(gs);
    CleanGvkeysComplete(gs);
  }

  lemma {:induction false} CleanGvkeysStripped(gs: seq<Cell>)
    ensures forall k :: 0 <= k < |CleanGvkeys(gs)| ==>
      CleanGvkeys(gs)[k] != "" && Strip(CleanGvkeys(gs)[k]) == CleanGvkeys(gs)[k]
  {
    if gs != [] {
      var tail := gs[1..];
      CleanGvkeysStripped(tail);
      var g := Strip(Render(gs[0]));
      var head := if Usable(gs[0]) then [g] else [];
      var rest := CleanGvkeys(tail);
      var r := CleanGvkeys(gs);
      assert r == head + rest;
      if Usable(gs[0]) {
        StripStripped(g);
      }
      forall k | 0 <= k < |r| ensures r[k] != "" && Strip(r[k]) == r[k] {
        if k >= |head| { assert r[k] == rest[k - |head|]; }
      }
    }
  }

  lemma {:induction false} CleanGvkeysComplete(gs: seq<Cell>)
    ensures forall i :: 0 <= i < |gs| && Usable(gs[i]) ==> Strip(Render(gs[i])) in CleanGvkeys(gs)
    ensures CleanGvkeys(gs) == [] ==> forall i :: 0 <= i < |gs| ==> !Usable(gs[i])
  {
    if gs != [] {
      var tail := gs[1..];
      CleanGvkeysComplete(tail);
      var head := if Usable(gs[0]) then [Strip(Render(gs[0]))] else [];
      var r := CleanGvkeys(gs);
      assert r == head + CleanGvkeys(tail);
      forall i | 0 <= i < |gs| && Usable(gs[i]) ensures Strip(Render(gs[i])) in r {
        if i > 0 { assert gs[i] == tail[i - 1]; }
      }
    }
  }

  datatype Param = Key(gvkey: string) | Year(year: int)

  /** Query text as written, with each `%s` parameter marker kept as a slot. */
  datatype Piece = Text(text: string) | Slot

  datatype FundaQuery = FundaQuery(sql: seq<Piece>, params: seq<Param>)

  /** `", ".join(["%s"] * n)`. */
  function Placeholders(n: nat): seq<Piece>
  {
    if n == 0 then [] else if n == 1 then [Slot] else [Slot, Text(", ")] + Placeholders(n - 1)
  }

  /** The query text before the placeholder list (its layout whitespace collapsed). */
  const FundaHead: string := "SELECT gvkey, datadate, fyear, fyr, indfmt, consol, datafmt, popsrc, at, dltt, che, xrd, capx, ib, ni, oibdp, sale, emp FROM comp.funda WHERE indfmt='INDL' AND consol='C' AND datafmt='STD' AND popsrc='D' AND gvkey IN ("

  /** The query after the placeholder list: the fiscal-year window. */
  const FundaTail: seq<Piece> := [Text(") AND fyear BETWEEN "), Slot, Text(" AND "), Slot, Text(";")]

  /** `pull_funda`'s query: none when the list is empty or nothing usable is
      left; otherwise one placeholder per cleaned gvkey, and the cleaned
      gvkeys followed by the two years as parameters. */
  function PullFunda(gvkeys: seq<Cell>, startYear: int, endYear: int): Option<FundaQuery>
  {
    if gvkeys == [] then None else
      var keys := CleanGvkeys(gvkeys);
      if keys == [] then None else
        Some(FundaQuery([Text(FundaHead)] + Placeholders(|keys|) + FundaTail,
                        seq(|keys|, i requires 0 <= i < |keys| => Key(keys[i])) + [Year(startYear), Year(endYear)]))
  }

  /** A query is issued exactly when some gvkey is usable; its parameters are
      the cleaned gvkeys in order and then the start and end year. */
  lemma PullFundaParams(gvkeys: seq<Cell>, startYear: int, endYear: int)
    ensures PullFunda(gvkeys, startYear, endYear).None? <==> forall i :: 0 <= i < |gvkeys| ==> !Usable(gvkeys[i])
    ensures PullFunda(gvkeys, startYear, endYear).Some? ==>
      var keys, ps := CleanGvkeys(gvkeys), PullFunda(gvkeys, startYear, endYear).value.params;
      |ps| == |keys| + 2 && ps[|keys|] == Year(startYear) && ps[|keys| + 1] == Year(endYear)
      && forall k :: 0 <= k < |keys| ==> ps[k] == Key(keys[k])
  {
    CleanGvkeysSound(gvkeys);
  }

  /** How many `%s` slots a query has. */
  function Slots(sql: seq<Piece>): nat
  {
    if sql == [] then 0 else (if sql[0].Slot? then 1 else 0) + Slots(sql[1..])
  }

  lemma {:induction false} SlotsAppend(a: seq<Piece>, b: seq<Piece>)
    ensures Slots(a + b) == Slots(a) + Slots(b)
  {
    if a == [] {
      assert a + b == b;
    } else {
      assert (a + b)[0] == a[0] && (a + b)[1..] == a[1..] + b;
      SlotsAppend(a[1..], b);
    }
  }

  /** The placeholder list has one slot per gvkey. */
  lemma {:induction false} PlaceholderSlots(n: nat)
    ensures Slots(Placeholders(n)) == n
  {
    if n > 1 {
      PlaceholderSlots(n - 1);
      SlotsAppend([Slot, Text(", ")], Placeholders(n - 1));
      assert Slots([Slot, Text(", ")]) == 1 by {
        assert [Slot, Text(", ")][1..] == [Text(", ")] && [Text(", ")][1..] == [];
      }
    } else if n == 1 {
      assert [Slot][1..] == [];
    }
  }

  lemma TailSlots()
    ensures Slots(FundaTail) == 2
  {
    var t := FundaTail;
    assert t[1..] == [Slot, Text(" AND "), Slot, Text(";")];
    assert t[1..][1..] == [Text(" AND "), Slot, Text(";")];
    assert t[1..][1..][1..] == [Slot, Text(";")];
    assert t[1..][1..][1..][1..] == [Text(";")];
    assert t[1..][1..][1..][1..][1..] == [];
  }

  /** The query has exactly as many `%s` slots as parameters, which is what
      passing a flat parameter list requires. */
  lemma FundaSlotsMatch(gvkeys: seq<Cell>, startYear: int, endYear: int)
    ensures PullFunda(gvkeys, startYear, endYear).Some? ==>
      Slots(PullFunda(gvkeys, startYear, endYear).value.sql)
        == |PullFunda(gvkeys, startYear, endYear).value.params|
  {
    var keys := CleanGvkeys(gvkeys);
    if PullFunda(gvkeys, startYear, endYear).Some? {
      var head: seq<Piece> := [Text(FundaHead)];
      assert Slots(head) == 0 by { assert head[1..] == []; }
      PlaceholderSlots(|keys|);
      TailSlots();
      SlotsAppend(head, Placeholders(|keys|));
      SlotsAppend(head + Placeholders(|keys|), FundaTail);
    }
  }
}
