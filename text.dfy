/** The Python `str` operations the pipeline relies on, over `seq<char>`.
    Whitespace is Python's exact `str.isspace()` set (which is also what `\s`
    matches in a `str` pattern); digits, letters and case mapping are ASCII. */
module Text {
  import opened Common

  predicate IsSpace(c: char) {
    c == ' ' || ('\t' <= c <= '\r') || ('\U{1C}' <= c <= '\U{1F}') || c == '\U{85}' || c == '\U{A0}'
    || c == '\U{1680}' || ('\U{2000}' <= c <= '\U{200A}') || c == '\U{2028}' || c == '\U{2029}'
    || c == '\U{202F}' || c == '\U{205F}' || c == '\U{3000}'
  }

  predicate IsDigit(c: char) { '0' <= c <= '9' }
  predicate IsUpperLetter(c: char) { 'A' <= c <= 'Z' }
  predicate IsLowerLetter(c: char) { 'a' <= c <= 'z' }
  predicate IsLetter(c: char) { IsUpperLetter(c) || IsLowerLetter(c) }
  predicate IsAlnum(c: char) { IsLetter(c) || IsDigit(c) }

  predicate AllSpace(s: string) { forall i :: 0 <= i < |s| ==> IsSpace(s[i]) }
  predicate NoSpace(s: string) { forall i :: 0 <= i < |s| ==> !IsSpace(s[i]) }

  /** `str.isdigit()`: non-empty and every character a digit. */
  predicate IsDigitString(s: string) { |s| > 0 && forall i :: 0 <= i < |s| ==> IsDigit(s[i]) }

  /** `str.isupper()`: some cased character and no lower-case one. */
  predicate IsUpperString(s: string) {
    (exists i :: 0 <= i < |s| && IsUpperLetter(s[i])) && forall i :: 0 <= i < |s| ==> !IsLowerLetter(s[i])
  }

  function LowerChar(c: char): (r: char)
    ensures !IsUpperLetter(r)
    ensures IsSpace(r) == IsSpace(c) && IsAlnum(r) == IsAlnum(c)
  {
    if IsUpperLetter(c) then (c as int + 32) as char else c
  }

  function UpperChar(c: char): (r: char)
    ensures !IsLowerLetter(r)
    ensures IsSpace(r) == IsSpace(c) && IsLetter(r) == IsLetter(c)
  {
    if IsLowerLetter(c) then (c as int - 32) as char else c
  }

  function Lower(s: string): (r: string)
    ensures |r| == |s| && forall i :: 0 <= i < |s| ==> r[i] == LowerChar(s[i])
  {
    seq(|s|, i requires 0 <= i < |s| => LowerChar(s[i]))
  }

  function Upper(s: string): (r: string)
    ensures |r| == |s| && forall i :: 0 <= i < |s| ==> r[i] == UpperChar(s[i])
  {
    seq(|s|, i requires 0 <= i < |s| => UpperChar(s[i]))
  }

  /** How many whitespace characters `s` starts with. */
  function LeadingSpace(s: string): (n: nat)
    ensures n <= |s|
  {
    if s != [] && IsSpace(s[0]) then 1 + LeadingSpace(s[1..]) else 0
  }

  /** How many whitespace characters `s` ends with. */
  function TrailingSpace(s: string): (n: nat)
    ensures n <= |s|
  {
    if s != [] && IsSpace(s[|s| - 1]) then 1 + TrailingSpace(s[..|s| - 1]) else 0
  }

  lemma {:induction false} LeadingSpaceMaximal(s: string)
    ensures AllSpace(s[..LeadingSpace(s)])
    ensures LeadingSpace(s) == |s| || !IsSpace(s[LeadingSpace(s)])
    decreases |s|
  {
    if s != [] && IsSpace(s[0]) {
      LeadingSpaceMaximal(s[1..]);
      var n := LeadingSpace(s[1..]);
      forall k | 0 <= k < n + 1 ensures IsSpace(s[k]) {
        if k > 0 { assert s[k] == s[1..][..n][k - 1]; }
      }
    }
  }

  lemma {:induction false} TrailingSpaceMaximal(s: string)
    ensures AllSpace(s[|s| - TrailingSpace(s)..])
    ensures TrailingSpace(s) == |s| || !IsSpace(s[|s| - 1 - TrailingSpace(s)])
    decreases |s|
  {
    if s != [] && IsSpace(s[|s| - 1]) {
      var p := s[..|s| - 1];
      TrailingSpaceMaximal(p);
      var n := TrailingSpace(p);
      forall k | |s| - (n + 1) <= k < |s| ensures IsSpace(s[k]) {
        if k < |s| - 1 { assert s[k] == p[|p| - n..][k - (|p| - n)]; }
      }
    }
  }

  /** `str.lstrip()`: drops the leading whitespace and nothing else. */
  function LStrip(s: string): string
  {
    s[LeadingSpace(s)..]
  }

  /** `str.rstrip()`: drops the trailing whitespace and nothing else. */
  function RStrip(s: string): string
  {
    s[..|s| - TrailingSpace(s)]
  }

  /** `str.strip()`. */
  function Strip(s: string): (r: string)
    ensures |r| <= |s|
    ensures r == [] || (!IsSpace(r[0]) && !IsSpace(r[|r| - 1]))
  {
    LeadingSpaceMaximal(s);
    TrailingSpaceMaximal(LStrip(s));
    RStrip(LStrip(s))
  }

  /** Strip keeps a contiguous middle piece and removes only whitespace around it. */
  lemma StripShape(s: string) returns (i: nat)
    ensures i + |Strip(s)| <= |s| && Strip(s) == s[i..i + |Strip(s)|]
    ensures AllSpace(s[..i]) && AllSpace(s[i + |Strip(s)|..])
    ensures s == s[..i] + Strip(s) + s[i + |Strip(s)|..]
  {
    i := LeadingSpace(s);
    var l := LStrip(s);
    LeadingSpaceMaximal(s);
    TrailingSpaceMaximal(l);
    var r := Strip(s);
    assert l[|r|..] == s[i + |r|..];
  }

  /** A string that is already stripped is its own strip. */
  lemma StripStripped(s: string)
    requires s == [] || (!IsSpace(s[0]) && !IsSpace(s[|s| - 1]))
    ensures Strip(s) == s
  {
  }

  /** Maximal prefix without whitespace. */
  function TakeWord(s: string): (r: string)
    ensures |r| <= |s| && r == s[..|r|] && NoSpace(r)
    ensures |r| == |s| || IsSpace(s[|r|])
    ensures s != [] && !IsSpace(s[0]) ==> r != []
  {
    if s == [] || IsSpace(s[0]) then [] else [s[0]] + TakeWord(s[1..])
  }

  /** `str.split()` with no separator: the maximal runs of non-whitespace. */
  function SplitWs(s: string): seq<string>
    decreases |s|
  {
    var t := LStrip(s);
    if t == [] then [] else
      LeadingSpaceMaximal(s);
      var w := TakeWord(t);
      [w] + SplitWs(t[|w|..])
  }

  /** Every piece of `str.split()` is a non-empty run without whitespace. */
  lemma {:induction false} SplitWsWords(s: string)
    ensures forall k :: 0 <= k < |SplitWs(s)| ==> SplitWs(s)[k] != [] && NoSpace(SplitWs(s)[k])
    decreases |s|
  {
    var t := LStrip(s);
    if t != [] {
      LeadingSpaceMaximal(s);
      var w := TakeWord(t);
      SplitWsWords(t[|w|..]);
      var rest := SplitWs(t[|w|..]);
      assert SplitWs(s) == [w] + rest;
      forall k | 0 <= k < |SplitWs(s)| ensures SplitWs(s)[k] != [] && NoSpace(SplitWs(s)[k]) {
        if k > 0 { assert SplitWs(s)[k] == rest[k - 1]; }
      }
    }
  }

  /** A string without whitespace splits into itself alone. */
  lemma {:induction false} SplitWsWord(w: string)
    requires w != [] && NoSpace(w)
    ensures SplitWs(w) == [w]
  {
    assert LStrip(w) == w;
    TakeWordAll(w);
    assert w[|w|..] == [];
  }

  lemma {:induction false} TakeWordAll(w: string)
    requires NoSpace(w)
    ensures TakeWord(w) == w
    decreases |w|
  {
    if w != [] {
      TakeWordAll(w[1..]);
      assert [w[0]] + w[1..] == w;
    }
  }

  /** `' '.join(parts)`. */
  function JoinSpace(parts: seq<string>): string
  {
    if parts == [] then [] else if |parts| == 1 then parts[0] else parts[0] + " " + JoinSpace(parts[1..])
  }

  /** The characters of `s` that are not whitespace, in order. */
  function NonSpace(s: string): string
  {
    if s == [] then [] else (if IsSpace(s[0]) then [] else [s[0]]) + NonSpace(s[1..])
  }

  lemma {:induction false} NonSpaceAppend(a: string, b: string)
    ensures NonSpace(a + b) == NonSpace(a) + NonSpace(b)
    decreases |a|
  {
    if a == [] {
      assert a + b == b;
    } else {
      assert (a + b)[0] == a[0] && (a + b)[1..] == a[1..] + b;
      NonSpaceAppend(a[1..], b);
    }
  }

  lemma {:induction false} NonSpaceOfSpace(s: string)
    requires AllSpace(s)
    ensures NonSpace(s) == []
    decreases |s|
  {
    if s != [] { NonSpaceOfSpace(s[1..]); }
  }

  /** Stripping never loses a visible character. */
  lemma NonSpaceStrip(s: string)
    ensures NonSpace(Strip(s)) == NonSpace(s)
  {
    var i := StripShape(s);
    var r := Strip(s);
    var pre, post := s[..i], s[i + |r|..];
    assert s == pre + r + post;
    NonSpaceAppend(pre + r, post);
    NonSpaceAppend(pre, r);
    NonSpaceOfSpace(pre);
    NonSpaceOfSpace(post);
  }

  predicate OccursAt(s: string, i: nat, m: string) {
    i + |m| <= |s| && s[i..i + |m|] == m
  }

  predicate Contains(s: string, m: string) {
    exists i: nat :: i <= |s| && OccursAt(s, i, m)
  }

  predicate StartsWith(s: string, p: string) { |p| <= |s| && s[..|p|] == p }
  predicate EndsWith(s: string, p: string) { |p| <= |s| && s[|s| - |p|..] == p }

  function IndexFrom(s: string, m: string, from: nat): (r: Option<nat>)
    requires from <= |s| + 1
    ensures r.Some? ==>
      from <= r.value && OccursAt(s, r.value, m) && forall j: nat :: from <= j < r.value ==> !OccursAt(s, j, m)
    ensures r.None? ==> forall j: nat :: from <= j ==> !OccursAt(s, j, m)
    decreases |s| + 1 - from
  {
    if from + |m| > |s| then None
    else if s[from..from + |m|] == m then Some(from)
    else IndexFrom(s, m, from + 1)
  }

  /** `str.find`: the first occurrence of `m` in `s`. */
  function IndexOf(s: string, m: string): (r: Option<nat>)
    ensures r.Some? ==> OccursAt(s, r.value, m) && forall j: nat :: j < r.value ==> !OccursAt(s, j, m)
    ensures r.None? <==> !Contains(s, m)
  {
    IndexFrom(s, m, 0)
  }

  /** An occurrence with none before it is the one `str.find` reports. */
  lemma IndexOfIs(s: string, m: string, k: nat)
    requires OccursAt(s, k, m)
    requires forall j: nat :: j < k ==> !OccursAt(s, j, m)
    ensures IndexOf(s, m) == Some(k)
  {
    assert Contains(s, m);
  }

  /** `str.split(c)` with a one-character separator. */
  function SplitOn(s: string, c: char): (r: seq<string>)
    ensures |r| >= 1
    ensures forall k :: 0 <= k < |r| ==> c !in r[k]
    decreases |s|
  {
    match IndexOf(s, [c])
    case None =>
      assert forall i :: 0 <= i < |s| ==> s[i] != c by {
        forall i | 0 <= i < |s| ensures s[i] != c { assert !OccursAt(s, i, [c]); }
      }
      [s]
    case Some(k) =>
      assert forall i :: 0 <= i < k ==> s[..k][i] != c by {
        forall i | 0 <= i < k ensures s[..k][i] != c { assert !OccursAt(s, i, [c]); }
      }
      [s[..k]] + SplitOn(s[k + 1..], c)
  }

  /** `s.count(c)` for one character. */
  function CountChar(s: string, c: char): (r: nat)
    ensures r <= |s|
    ensures r == 0 <==> c !in s
  {
    if s == [] then 0 else (if s[0] == c then 1 else 0) + CountChar(s[1..], c)
  }

  /** The identity on strings, for keying a string by itself. */
  function Id(s: string): string { s }

  /** `str.replace(pat, rep)`: every non-overlapping occurrence, scanning left to right. */
  function ReplaceAll(s: string, pat: string, rep: string): (r: string)
    requires pat != []
    ensures !Contains(s, pat) ==> r == s
    decreases |s|
  {
    if |s| < |pat| then s
    else if s[..|pat|] == pat then
      assert OccursAt(s, 0, pat);
      rep + ReplaceAll(s[|pat|..], pat, rep)
    else
      assert !Contains(s, pat) ==> !Contains(s[1..], pat) by {
        if Contains(s[1..], pat) {
          var i: nat :| i <= |s[1..]| && OccursAt(s[1..], i, pat);
          assert s[i + 1..i + 1 + |pat|] == s[1..][i..i + |pat|];
          assert OccursAt(s, i + 1, pat);
        }
      }
      [s[0]] + ReplaceAll(s[1..], pat, rep)
  }

  /** Replacing by something no longer never lengthens a string. */
  lemma {:induction false} ReplaceNotLonger(s: string, pat: string, rep: string)
    requires pat != [] && |rep| <= |pat|
    ensures |ReplaceAll(s, pat, rep)| <= |s|
    decreases |s|
  {
    if |s| >= |pat| {
      if s[..|pat|] == pat {
        ReplaceNotLonger(s[|pat|..], pat, rep);
      } else {
        ReplaceNotLonger(s[1..], pat, rep);
      }
    }
  }

  /** Replacing an occurring pattern by something shorter shortens the string. */
  lemma {:induction false} ReplaceShortens(s: string, pat: string, rep: string)
    requires pat != [] && |rep| < |pat| && Contains(s, pat)
    ensures |ReplaceAll(s, pat, rep)| < |s|
    decreases |s|
  {
    var i: nat :| i <= |s| && OccursAt(s, i, pat);
    if s[..|pat|] == pat {
      ReplaceNotLonger(s[|pat|..], pat, rep);
    } else {
      assert i > 0;
      assert s[1..][i - 1..i - 1 + |pat|] == s[i..i + |pat|];
      assert OccursAt(s[1..], i - 1, pat);
      ReplaceShortens(s[1..], pat, rep);
    }
  }

  /** The value of a string of decimal digits. */
  function DecimalValue(s: string): (r: nat)
    requires forall i :: 0 <= i < |s| ==> IsDigit(s[i])
  {
    if s == [] then 0 else
      assert IsDigit(s[|s| - 1]);
      DecimalValue(s[..|s| - 1]) * 10 + (s[|s| - 1] as int - '0' as int)
  }

  function DigitChar(d: nat): (c: char)
    requires d < 10
    ensures IsDigit(c)
  {
    ('0' as int + d) as char
  }

  /** `str(n)` for a natural number. */
  function NatToString(n: nat): (r: string)
    ensures |r| >= 1 && forall i :: 0 <= i < |r| ==> IsDigit(r[i])
    ensures DecimalValue(r) == n
  {
    if n < 10 then [DigitChar(n)] else
      var r := NatToString(n / 10) + [DigitChar(n % 10)];
      assert r[..|r| - 1] == NatToString(n / 10);
      r
  }

  /** The index just past the last '/', or 0. */
  function AfterLastSlash(p: string): (r: nat)
    ensures r <= |p| && '/' !in p[r..]
    ensures r > 0 ==> p[r - 1] == '/'
  {
    if p == [] then 0
    else if p[|p| - 1] == '/' then |p|
    else
      var r := AfterLastSlash(p[..|p| - 1]);
      assert p[r..] == p[..|p| - 1][r..] + [p[|p| - 1]];
      r
  }

  /** `os.path.basename` (POSIX). */
  function Basename(p: string): (r: string)
    ensures '/' !in r && EndsWith(p, r)
  {
    p[AfterLastSlash(p)..]
  }

  function RStripSlash(s: string): (r: string)
  {
    if s != [] && s[|s| - 1] == '/' then RStripSlash(s[..|s| - 1]) else s
  }

  /** `os.path.dirname` (POSIX): the head before the last '/', with trailing
      slashes dropped unless the head is made only of slashes. */
  function Dirname(p: string): string
  {
    var head := p[..AfterLastSlash(p)];
    if head != [] && RStripSlash(head) != [] then RStripSlash(head) else head
  }
}
