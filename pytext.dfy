/**
 * The handful of Python `str` operations the modelled code relies on:
 * whitespace stripping and splitting, substring search and replacement,
 * ASCII case mapping, and decimal conversion of integers.
 */
module PyText {
  import opened Outcomes

  /** Python's `str.isspace` (and the regex class `\s`), code point by code point. */
  predicate IsSpace(c: char) {
    var k := c as int;
    9 <= k <= 13 || 28 <= k <= 32 || k == 0x85 || k == 0xA0 || k == 0x1680
    || 0x2000 <= k <= 0x200A || k == 0x2028 || k == 0x2029 || k == 0x202F
    || k == 0x205F || k == 0x3000
  }

  /** `s.lstrip()`: drops the longest all-whitespace prefix. */
  function LStrip(s: string): (r: string)
    ensures |r| <= |s| && r == s[|s| - |r|..]
    ensures r == [] || !IsSpace(r[0])
    ensures forall i :: 0 <= i < |s| - |r| ==> IsSpace(s[i])
  {
    if s != [] && IsSpace(s[0]) then LStrip(s[1..]) else s
  }

  /** `s.rstrip()`: drops the longest all-whitespace suffix. */
  function RStrip(s: string): (r: string)
    ensures |r| <= |s| && r == s[..|r|]
    ensures r == [] || !IsSpace(r[|r| - 1])
    ensures forall i :: |r| <= i < |s| ==> IsSpace(s[i])
  {
    if s != [] && IsSpace(s[|s| - 1]) then RStrip(s[..|s| - 1]) else s
  }

  /** `s.strip()`. */
  function Strip(s: string): (r: string)
    ensures r == [] || (!IsSpace(r[0]) && !IsSpace(r[|r| - 1]))
  {
    RStrip(LStrip(s))
  }

  lemma LStripIdempotent(s: string)
    ensures LStrip(LStrip(s)) == LStrip(s)
  {
  }

  /** Length of the longest whitespace-free prefix of `s`. */
  function WordLen(s: string): (n: nat)
    ensures n <= |s|
    ensures forall i :: 0 <= i < n ==> !IsSpace(s[i])
    ensures n == |s| || IsSpace(s[n])
  {
    if s == [] || IsSpace(s[0]) then 0 else 1 + WordLen(s[1..])
  }

  /** A non-empty run without whitespace: what `str.split()` yields. */
  predicate IsWord(w: string) {
    w != [] && forall i :: 0 <= i < |w| ==> !IsSpace(w[i])
  }

  /** `s.split()` with no separator: the maximal runs of non-whitespace, in order. */
  function Split(s: string): seq<string>
    decreases |s|
  {
    var t := LStrip(s);
    if t == [] then []
    else
      var n := WordLen(t);
      [t[..n]] + Split(t[n..])
  }

  /** Every field `split` yields is a word. */
  lemma {:induction false} SplitWords(s: string)
    ensures forall k :: 0 <= k < |Split(s)| ==> IsWord(Split(s)[k])
    decreases |s|
  {
    var t := LStrip(s);
    if t != [] {
      var n := WordLen(t);
      var w := t[..n];
      assert IsWord(w);
      var rest := Split(t[n..]);
      SplitWords(t[n..]);
      assert Split(s) == [w] + rest;
      forall k | 0 <= k < |Split(s)| ensures IsWord(Split(s)[k]) {
        if k > 0 {
          assert Split(s)[k] == rest[k - 1];
        }
      }
    }
  }

  /** `" ".join(ws)`. */
  function JoinSpace(ws: seq<string>): string {
    if ws == [] then ""
    else if |ws| == 1 then ws[0]
    else ws[0] + " " + JoinSpace(ws[1..])
  }

  /** `" ".join(s.split())`: every whitespace run becomes one space, ends trimmed. */
  function Collapse(s: string): string {
    JoinSpace(Split(s))
  }

  /** The shape `Collapse` produces: no whitespace at either end, and every
      whitespace character is a single ' ' followed by a non-whitespace one. */
  predicate Collapsed(t: string) {
    && (t == [] || (!IsSpace(t[0]) && !IsSpace(t[|t| - 1])))
    && forall i :: 0 <= i < |t| && IsSpace(t[i]) ==> t[i] == ' ' && i + 1 < |t| && !IsSpace(t[i + 1])
  }

  lemma SplitOfLStrip(s: string)
    ensures Split(LStrip(s)) == Split(s)
  {
    LStripIdempotent(s);
  }

  lemma SplitOfWord(w: string)
    requires IsWord(w)
    ensures Split(w) == [w]
  {
    assert LStrip(w) == w;
    WordLenOfPrefix(w, w);
    assert w[|w|..] == [];
  }

  /** `split` of a string that starts with a non-space: its first word, then
      the split of what follows. */
  lemma SplitUnfold(s: string)
    requires s != [] && !IsSpace(s[0])
    ensures Split(s) == [s[..WordLen(s)]] + Split(s[WordLen(s)..])
  {
    assert LStrip(s) == s;
  }

  /** A leading space does not change the split. */
  lemma SplitOfSpace(rest: string)
    requires rest != [] && !IsSpace(rest[0])
    ensures Split(" " + rest) == Split(rest)
  {
    var y := " " + rest;
    assert IsSpace(y[0]) && y[1..] == rest;
    assert LStrip(y) == LStrip(rest);
    assert LStrip(rest) == rest;
  }

  /** A word, one space and a string that starts with a non-space split into the word and the rest's split. */
  lemma SplitOfWordSpace(w: string, rest: string)
    requires IsWord(w) && rest != [] && !IsSpace(rest[0])
    ensures Split(w + " " + rest) == [w] + Split(rest)
  {
    var x := w + " " + rest;
    assert x[..|w|] == w;
    assert x[|w|] == ' ';
    WordLenOfPrefix(x, w);
    assert x[0] == w[0];
    SplitUnfold(x);
    assert x[|w|..] == " " + rest;
    SplitOfSpace(rest);
  }

  lemma {:induction false} JoinSpaceFirst(ws: seq<string>)
    requires ws != [] && IsWord(ws[0])
    ensures JoinSpace(ws) != [] && JoinSpace(ws)[0] == ws[0][0]
  {
  }

  /** The split of two or more joined words is the first word, then the
      split of the rest joined. */
  lemma SplitJoinSpaceCons(ws: seq<string>)
    requires |ws| > 1 && IsWord(ws[0]) && IsWord(ws[1])
    ensures Split(JoinSpace(ws)) == [ws[0]] + Split(JoinSpace(ws[1..]))
  {
    JoinSpaceCons(ws);
    SplitOfWordSpace(ws[0], JoinSpace(ws[1..]));
  }

  /** A list of two or more words joins as its first word, a space, and the rest joined, which starts with a non-space. */
  lemma JoinSpaceCons(ws: seq<string>)
    requires |ws| > 1 && IsWord(ws[1])
    ensures JoinSpace(ws) == ws[0] + " " + JoinSpace(ws[1..])
    ensures JoinSpace(ws[1..]) != [] && !IsSpace(JoinSpace(ws[1..])[0])
  {
    assert ws[1..][0] == ws[1];
    JoinSpaceFirst(ws[1..]);
  }

  /** Splitting a space-joined list of words gives the words back. */
  lemma {:induction false} SplitJoinSpace(ws: seq<string>)
    requires forall k :: 0 <= k < |ws| ==> IsWord(ws[k])
    ensures Split(JoinSpace(ws)) == ws
    decreases |ws|
  {
    if |ws| == 1 {
      SplitOfWord(ws[0]);
    } else if |ws| > 1 {
      SplitJoinSpace(ws[1..]);
      SplitJoinSpaceCons(ws);
      assert [ws[0]] + ws[1..] == ws;
    }
  }

  lemma {:induction false} WordLenOfPrefix(s: string, w: string)
    requires |s| >= |w| && s[..|w|] == w
    requires forall i :: 0 <= i < |w| ==> !IsSpace(w[i])
    requires |s| == |w| || IsSpace(s[|w|])
    ensures WordLen(s) == |w|
    decreases |w|
  {
    if w != [] {
      assert s[1..][..|w| - 1] == w[1..];
      WordLenOfPrefix(s[1..], w[1..]);
    }
  }

  /** Every whitespace run in a space-joined word list is a single ' '. */
  lemma {:induction false} JoinSpaceCollapsed(ws: seq<string>)
    requires forall k :: 0 <= k < |ws| ==> IsWord(ws[k])
    ensures Collapsed(JoinSpace(ws))
    decreases |ws|
  {
    if |ws| > 1 {
      var rest := JoinSpace(ws[1..]);
      JoinSpaceCollapsed(ws[1..]);
      JoinSpaceFirst(ws[1..]);
      var j := JoinSpace(ws);
      var w := ws[0];
      assert j == w + " " + rest;
      forall i | 0 <= i < |j| && IsSpace(j[i])
        ensures j[i] == ' ' && i + 1 < |j| && !IsSpace(j[i + 1])
      {
        if i == |w| {
          assert j[i + 1] == rest[0];
        } else if i > |w| {
          assert j[i] == rest[i - |w| - 1];
        }
      }
    }
  }

  /** Applying `Collapse` twice is the same as applying it once. */
  lemma CollapseIdempotent(s: string)
    ensures Collapse(Collapse(s)) == Collapse(s)
    ensures Collapsed(Collapse(s))
  {
    SplitWords(s);
    SplitJoinSpace(Split(s));
    JoinSpaceCollapsed(Split(s));
  }

  /** `pat` occurs in `s` starting at index `i`. */
  predicate MatchesAt(s: string, pat: string, i: int) {
    0 <= i && i + |pat| <= |s| && s[i..i + |pat|] == pat
  }

  /** Python's `pat in s`. */
  predicate Contains(s: string, pat: string) {
    exists i | 0 <= i <= |s| :: MatchesAt(s, pat, i)
  }

  /** `s.find(pat, start)` for a non-negative `start`: the first occurrence at or after it. */
  function FindFrom(s: string, pat: string, start: nat): (r: Option<nat>)
    ensures r.Some? ==> start <= r.value && MatchesAt(s, pat, r.value)
    ensures r.Some? ==> forall k :: start <= k < r.value ==> !MatchesAt(s, pat, k)
    ensures r.None? ==> forall k :: start <= k ==> !MatchesAt(s, pat, k)
    decreases |s| + 1 - start
  {
    if start + |pat| > |s| then None
    else if s[start..start + |pat|] == pat then Some(start)
    else FindFrom(s, pat, start + 1)
  }

  /** `s.replace(pat, rep)`: every non-overlapping occurrence, scanning left to right. */
  function ReplaceAll(s: string, pat: string, rep: string): (r: string)
    requires pat != []
    ensures !Contains(s, pat) ==> r == s
    decreases |s|
  {
    if |s| < |pat| then s
    else if s[..|pat|] == pat then
      assert MatchesAt(s, pat, 0);
      rep + ReplaceAll(s[|pat|..], pat, rep)
    else
      ContainsTail(s, pat);
      [s[0]] + ReplaceAll(s[1..], pat, rep)
  }

  lemma ContainsTail(s: string, pat: string)
    requires s != []
    ensures Contains(s[1..], pat) ==> Contains(s, pat)
  {
    if Contains(s[1..], pat) {
      var i :| 0 <= i <= |s[1..]| && MatchesAt(s[1..], pat, i);
      assert s[i + 1..i + 1 + |pat|] == s[1..][i..i + |pat|];
      assert MatchesAt(s, pat, i + 1);
    }
  }

  /** ASCII upper-casing of one character. */
  function UpperChar(c: char): char {
    if 'a' <= c <= 'z' then (c as int - 32) as char else c
  }

  /** ASCII lower-casing of one character. */
  function LowerChar(c: char): char {
    if 'A' <= c <= 'Z' then (c as int + 32) as char else c
  }

  function Upper(s: string): (r: string)
    ensures |r| == |s|
  {
    if s == [] then [] else [UpperChar(s[0])] + Upper(s[1..])
  }

  function Lower(s: string): (r: string)
    ensures |r| == |s|
  {
    if s == [] then [] else [LowerChar(s[0])] + Lower(s[1..])
  }

  predicate IsDigit(c: char) { '0' <= c <= '9' }

  function DigitChar(d: nat): (c: char)
    requires d < 10
    ensures IsDigit(c)
  {
    ('0' as int + d) as char
  }

  /** `str(n)` for a natural number. */
  function NatToString(n: nat): (r: string)
    ensures r != [] && forall i :: 0 <= i < |r| ==> IsDigit(r[i])
  {
    if n < 10 then [DigitChar(n)] else NatToString(n / 10) + [DigitChar(n % 10)]
  }

  /** `str(i)` for an integer. */
  function IntToString(i: int): string {
    if i < 0 then "-" + NatToString(-i) else NatToString(i)
  }

  /** The value of a string of decimal digits. */
  function DigitValue(c: char): (d: nat)
    requires IsDigit(c)
    ensures d < 10
  {
    c as int - '0' as int
  }

  function DigitsValue(ds: string): nat
    requires forall i :: 0 <= i < |ds| ==> IsDigit(ds[i])
  {
    if ds == [] then 0 else 10 * DigitsValue(ds[..|ds| - 1]) + DigitValue(ds[|ds| - 1])
  }

  predicate AllDigits(ds: string) {
    ds != [] && forall i :: 0 <= i < |ds| ==> IsDigit(ds[i])
  }

  /** `int(s)` for a string: surrounding whitespace, an optional sign, decimal digits. */
  function ParseInt(s: string): (r: Option<int>)
    ensures r.Some? ==> Strip(s) != []
  {
    var t := Strip(s);
    if t == [] then None
    else if t[0] == '-' || t[0] == '+' then
      if AllDigits(t[1..]) then
        var v: int := DigitsValue(t[1..]);
        Some(if t[0] == '-' then -v else v)
      else None
    else if AllDigits(t) then Some(DigitsValue(t))
    else None
  }

  /** `int(s)` succeeds exactly on stripped text made of decimal digits with
      an optional sign, and gives their value, negated after a minus sign. */
  lemma ParseIntSpec(s: string)
    ensures var t := Strip(s);
            ParseInt(s).Some? <==> AllDigits(t) || (t != [] && (t[0] == '-' || t[0] == '+') && AllDigits(t[1..]))
    ensures var t := Strip(s); AllDigits(t) ==> ParseInt(s) == Some(DigitsValue(t) as int)
    ensures var t := Strip(s); t != [] && t[0] == '-' && AllDigits(t[1..]) ==> ParseInt(s) == Some(-(DigitsValue(t[1..]) as int))
    ensures var t := Strip(s); t != [] && t[0] == '+' && AllDigits(t[1..]) ==> ParseInt(s) == Some(DigitsValue(t[1..]) as int)
  {
    var t := Strip(s);
    if t != [] && (t[0] == '-' || t[0] == '+') {
      assert !IsDigit(t[0]);
    }
  }

  lemma {:induction false} NatToStringValue(n: nat)
    ensures DigitsValue(NatToString(n)) == n
  {
    if n >= 10 {
      var p := NatToString(n / 10);
      var r := p + [DigitChar(n % 10)];
      assert r[..|r| - 1] == p;
      NatToStringValue(n / 10);
    }
  }

  lemma StripOfTrimmed(s: string)
    requires s != [] && !IsSpace(s[0]) && !IsSpace(s[|s| - 1])
    ensures Strip(s) == s
  {
    assert LStrip(s) == s;
  }

  lemma ParseIntOfDigits(ds: string)
    requires AllDigits(ds)
    ensures ParseInt(ds) == Some(DigitsValue(ds) as int)
  {
    StripOfTrimmed(ds);
    assert !IsDigit('-') && !IsDigit('+');
  }

  lemma ParseIntOfNegDigits(ds: string, v: nat)
    requires AllDigits(ds) && DigitsValue(ds) == v
    ensures ParseInt("-" + ds) == Some(-(v as int))
  {
    var s := "-" + ds;
    assert s[1..] == ds;
    assert s[|s| - 1] == ds[|ds| - 1];
    StripOfTrimmed(s);
    assert Strip(s) == s && s[0] == '-';
  }

  /** `int(str(i)) == i`: the decimal rendering of an integer parses back to it. */
  lemma IntToStringRoundTrip(i: int)
    ensures ParseInt(IntToString(i)) == Some(i)
  {
    if i < 0 {
      NegRoundTrip(i);
    } else {
      NonNegRoundTrip(i);
    }
  }

  lemma NegRoundTrip(i: int)
    requires i < 0
    ensures ParseInt(IntToString(i)) == Some(i)
  {
    var ds := NatToString(-i);
    assert IntToString(i) == "-" + ds;
    NatToStringValue(-i);
    ParseIntOfNegDigits(ds, -i);
  }

  lemma NonNegRoundTrip(i: int)
    requires i >= 0
    ensures ParseInt(IntToString(i)) == Some(i)
  {
    var ds := NatToString(i);
    assert IntToString(i) == ds;
    NatToStringValue(i);
    ParseIntOfDigits(ds);
  }

  /** `s.split(sep)` for a one-character separator: empty fields are kept. */
  function SplitOn(s: string, sep: char): (r: seq<string>)
    ensures |r| >= 1
    ensures forall k, i :: 0 <= k < |r| && 0 <= i < |r[k]| ==> r[k][i] != sep
    decreases |s|
  {
    var at := FindFrom(s, [sep], 0);
    if at.None? then
      assert forall i :: 0 <= i < |s| ==> s[i] != sep by {
        forall i | 0 <= i < |s| ensures s[i] != sep {
          assert !MatchesAt(s, [sep], i);
          assert s[i..i + 1] == [s[i]];
        }
      }
      [s]
    else
      var k := at.value;
      assert forall i :: 0 <= i < k ==> s[i] != sep by {
        forall i | 0 <= i < k ensures s[i] != sep {
          assert !MatchesAt(s, [sep], i);
          assert s[i..i + 1] == [s[i]];
        }
      }
      [s[..k]] + SplitOn(s[k + 1..], sep)
  }
}
