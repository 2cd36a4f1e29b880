/**
 * The text helpers shared by the orchestrator and the server endpoints
 * (pipelines/utils.py): stripping the Markdown fences around generated
 * code, cutting the CAS job list out of the generator's answer, rewriting
 * LaTeX target expressions into SymPy-friendly text, and finding and
 * substituting `[[CAS:<id>]]` placeholders.
 *
 * Every regular expression of the original is written out as the scan it
 * performs; `json.loads` is a parameter.
 */
module CasText {
  import opened Outcomes
  import opened PyText
  import opened PyValue

  /** `libs.schemas.CASResult`: one computed job result. */
  datatype CasResult = CasResult(id: string, resultTex: string, resultPy: string)

  // ------------------------------------------------------------ code fences

  const Fence: string := "```"

  /** First index at or after `p` that is not whitespace: the regex `\s*`. */
  function SkipSpaces(s: string, p: nat): (q: nat)
    requires p <= |s|
    ensures p <= q <= |s| && (q == |s| || !IsSpace(s[q]))
    ensures forall k | p <= k < q :: IsSpace(s[k])
    decreases |s| - p
  {
    if p < |s| && IsSpace(s[p]) then SkipSpaces(s, p + 1) else p
  }

  /** Start of the whitespace run that ends at `q`. */
  function SkipSpacesBack(s: string, q: nat): (p: nat)
    requires q <= |s|
    ensures p <= q && (p == 0 || !IsSpace(s[p - 1]))
    ensures forall k | p <= k < q :: IsSpace(s[k])
  {
    if q > 0 && IsSpace(s[q - 1]) then SkipSpacesBack(s, q - 1) else q
  }

  /** Where the text starts once `re.sub(r"^\s*```(?:python)?\s*", "", t)`
      has removed an opening fence, its optional `python` tag and the
      whitespace around it; 0 when `t` does not open with a fence. */
  function OpeningFenceEnd(t: string): (p: nat)
    ensures p <= |t|
  {
    var a := SkipSpaces(t, 0);
    if a + 3 <= |t| && t[a..a + 3] == Fence then
      var b := if a + 9 <= |t| && t[a + 3..a + 9] == "python" then a + 9 else a + 3;
      SkipSpaces(t, b)
    else 0
  }

  /** Where the text ends once `re.sub(r"\s*```\s*$", "", t)` has removed a
      closing fence followed only by whitespace, with the whitespace before
      it; `|t|` when `t` does not close with a fence. */
  function ClosingFenceStart(t: string): (q: nat)
    ensures q <= |t|
  {
    var e := SkipSpacesBack(t, |t|);
    if e >= 3 && t[e - 3..e] == Fence then SkipSpacesBack(t, e - 3) else |t|
  }

  /** `strip_code_fences(text)`: the contiguous piece of the input between
      the fences. */
  function StripCodeFences(text: string): (r: string)
    ensures exists i, j | 0 <= i <= j <= |text| :: r == text[i..j]
  {
    if text == [] then
      assert text == text[0..0];
      text
    else
      var p := OpeningFenceEnd(text);
      var rest := text[p..];
      var q := ClosingFenceStart(rest);
      assert rest[..q] == text[p..p + q];
      rest[..q]
  }

  /** A fenced block loses exactly its fences: the body between a
      ```` ```python ```` line and a closing ```` ``` ```` line, with or
      without a final newline, comes back unchanged as long as it starts and
      ends with a visible character. */
  lemma FencedBodyRoundTrip(body: string, tail: string)
    requires body != [] && !IsSpace(body[0]) && !IsSpace(body[|body| - 1])
    requires tail == "" || tail == "\n"
    ensures StripCodeFences("```python\n" + body + "\n```" + tail) == body
  {
    var rest := body + "\n```" + tail;
    var text := "```python\n" + rest;
    assert text == "```python\n" + body + "\n```" + tail;
    OpeningOfFenced(text, rest);
    assert text[10..] == rest;
    ClosingOfFenced(body, tail);
    assert rest[..|body|] == body;
    assert text != [];
  }

  lemma OpeningOfFenced(text: string, rest: string)
    requires rest != [] && !IsSpace(rest[0])
    requires text == "```python\n" + rest
    ensures OpeningFenceEnd(text) == 10
  {
    var head := "```python\n";
    assert text[..10] == head;
    assert text[0] == '`';
    assert SkipSpaces(text, 0) == 0;
    assert text[0..3] == head[0..3] == Fence;
    assert text[3..9] == head[3..9] == "python";
    assert text[9] == '\n' && text[10] == rest[0];
    assert SkipSpaces(text, 10) == 10;
    assert SkipSpaces(text, 9) == 10;
  }

  lemma ClosingOfFenced(body: string, tail: string)
    requires body != [] && !IsSpace(body[|body| - 1])
    requires tail == "" || tail == "\n"
    ensures ClosingFenceStart(body + "\n```" + tail) == |body|
  {
    var rest := body + "\n```" + tail;
    var n := |body|;
    assert rest[n + 3] == '`';
    assert SkipSpacesBack(rest, n + 4) == n + 4;
    assert SkipSpacesBack(rest, |rest|) == n + 4;
    assert rest[n + 1..n + 4] == Fence;
    assert rest[n] == '\n' && rest[n - 1] == body[n - 1];
    assert SkipSpacesBack(rest, n) == n;
    assert SkipSpacesBack(rest, n + 1) == n;
  }

  // ------------------------------------------------------ balanced brackets

  const NoOpenMessage: string := "CAS-JOBS JSON 배열 시작 '['를 찾지 못했습니다."
  const NoCloseMessage: string := "대괄호 균형이 맞는 JSON 배열 끝을 찾지 못했습니다."

  /** How one character moves the bracket depth. */
  function Step(c: char): int {
    if c == '[' then 1 else if c == ']' then -1 else 0
  }

  /** Bracket depth after reading `s`: opening minus closing brackets. */
  function Depth(s: string): int {
    if s == [] then 0 else Depth(s[..|s| - 1]) + Step(s[|s| - 1])
  }

  /** The scan from index `j` at depth `depth`: the first index where a `]`
      brings the depth back to zero. */
  function CloseFrom(text: string, j: nat, depth: int): (r: Option<nat>)
    ensures r.Some? ==> j <= r.value < |text| && text[r.value] == ']'
    decreases |text| - j
  {
    if j >= |text| then None
    else if text[j] == '[' then CloseFrom(text, j + 1, depth + 1)
    else if text[j] == ']' then
      if depth - 1 == 0 then Some(j) else CloseFrom(text, j + 1, depth - 1)
    else CloseFrom(text, j + 1, depth)
  }

  /** What `find_balanced_json_array(text, start)` returns or raises. */
  function BalancedArray(text: string, start: nat): Result<string> {
    match FindFrom(text, "[", start)
    case None => Err(RuntimeError(NoOpenMessage))
    case Some(i) =>
      match CloseFrom(text, i, 0)
      case None => Err(RuntimeError(NoCloseMessage))
      case Some(j) => Ok(text[i..j + 1])
  }

  lemma DepthStep(text: string, i: nat, j: nat)
    requires i <= j < |text|
    ensures Depth(text[i..j + 1]) == Depth(text[i..j]) + Step(text[j])
  {
    assert text[i..j + 1][..j - i] == text[i..j];
  }

  /** The scan from an opening bracket at `i`, resumed at `j` with the depth
      of `text[i..j]`, stops at the first prefix whose depth is zero; until
      then every prefix is deeper than zero. */
  lemma {:induction false} CloseFromSpec(text: string, i: nat, j: nat)
    requires i < |text| && text[i] == '[' && i <= j <= |text|
    requires forall k | i < k <= j :: Depth(text[i..k]) > 0
    ensures var r := CloseFrom(text, j, Depth(text[i..j]));
            && (r.Some? ==> Depth(text[i..r.value + 1]) == 0
                            && forall k | i < k <= r.value :: Depth(text[i..k]) > 0)
            && (r.None? ==> forall k | i < k <= |text| :: Depth(text[i..k]) > 0)
    decreases |text| - j
  {
    if j < |text| {
      var d := Depth(text[i..j]);
      DepthStep(text, i, j);
      var d' := Depth(text[i..j + 1]);
      assert j == i ==> text[i..j] == [] && d == 0;
      if !(text[j] == ']' && d - 1 == 0) {
        assert d' > 0;
        assert CloseFrom(text, j, d) == CloseFrom(text, j + 1, d');
        PositiveExtend(text, i, j);
        CloseFromSpec(text, i, j + 1);
      } else {
        assert CloseFrom(text, j, d) == Some(j) && d' == 0;
      }
    } else {
      assert CloseFrom(text, j, Depth(text[i..j])) == None;
    }
  }

  lemma PositiveExtend(text: string, i: nat, j: nat)
    requires i <= j < |text|
    requires forall k | i < k <= j :: Depth(text[i..k]) > 0
    requires Depth(text[i..j + 1]) > 0
    ensures forall k | i < k <= j + 1 :: Depth(text[i..k]) > 0
  {
  }

  /** `find_balanced_json_array`: the text from the first `[` at or after
      `start` to the bracket that balances it. It raises when there is no
      `[` and when the brackets never balance. */
  lemma BalancedArraySpec(text: string, start: nat)
    ensures BalancedArray(text, start) == Err(RuntimeError(NoOpenMessage))
            <==> forall k | start <= k < |text| :: text[k] != '['
    ensures BalancedArray(text, start).Ok? ==>
              var s := BalancedArray(text, start).value;
              && |s| >= 2 && s[0] == '[' && s[|s| - 1] == ']'
              && Depth(s) == 0
              && (forall k | 0 < k < |s| :: Depth(s[..k]) > 0)
              && exists i | start <= i :: FindFrom(text, "[", start) == Some(i) && i + |s| <= |text| && s == text[i..i + |s|]
    ensures (exists i :: FindFrom(text, "[", start) == Some(i)
                        && forall k | i < k <= |text| :: Depth(text[i..k]) > 0)
            <==> BalancedArray(text, start) == Err(RuntimeError(NoCloseMessage))
  {
    BalancedArrayOpen(text, start);
    var f := FindFrom(text, "[", start);
    if f.Some? {
      var i := f.value;
      CloseFromSpec(text, i, i);
      assert text[i..i] == [];
      if CloseFrom(text, i, 0).Some? {
        BalancedArrayFound(text, start, i, CloseFrom(text, i, 0).value);
      }
    }
  }

  /** Only a text without `[` from `start` on raises the missing-open error. */
  lemma BalancedArrayOpen(text: string, start: nat)
    ensures BalancedArray(text, start) == Err(RuntimeError(NoOpenMessage))
            <==> forall k | start <= k < |text| :: text[k] != '['
    ensures FindFrom(text, "[", start).Some? ==>
              var i := FindFrom(text, "[", start).value;
              start <= i < |text| && text[i] == '['
  {
    var f := FindFrom(text, "[", start);
    if f.None? {
      forall k | start <= k < |text| ensures text[k] != '[' {
        assert !MatchesAt(text, "[", k);
      }
    } else {
      var i := f.value;
      assert MatchesAt(text, "[", i);
      assert text[i] == '[';
      assert NoOpenMessage != NoCloseMessage;
    }
  }

  /** The array found when the scan from the first `[` at `i` closes at `j`. */
  lemma BalancedArrayFound(text: string, start: nat, i: nat, j: nat)
    requires FindFrom(text, "[", start) == Some(i) && CloseFrom(text, i, 0) == Some(j)
    requires i < |text| && text[i] == '['
    requires Depth(text[i..j + 1]) == 0 && forall k | i < k <= j :: Depth(text[i..k]) > 0
    ensures i < j < |text|
    ensures BalancedArray(text, start) == Ok(text[i..j + 1])
    ensures var s := text[i..j + 1];
              && |s| >= 2 && s[0] == '[' && s[|s| - 1] == ']'
              && (forall k | 0 < k < |s| :: Depth(s[..k]) > 0)
  {
    var s := text[i..j + 1];
    assert Depth(text[i..i + 1]) == 1 by { DepthStep(text, i, i); }
    assert j != i;
    forall k | 0 < k < |s| ensures Depth(s[..k]) > 0 {
      assert s[..k] == text[i..i + k];
    }
    DepthStep(text, i, j);
    assert s[|s| - 1] == text[j];
  }

  /** `find_balanced_json_array(text, start_idx)`. */
  method FindBalancedJsonArray(text: string, start: nat) returns (r: Result<string>)
    ensures r == BalancedArray(text, start)
  {
    var found := FindFrom(text, "[", start);
    if found.None? {
      return Err(RuntimeError(NoOpenMessage));
    }
    var i := found.value;
    var depth := 0;
    var j := i;
    while j < |text|
      invariant i <= j <= |text|
      invariant CloseFrom(text, j, depth) == CloseFrom(text, i, 0)
      decreases |text| - j
    {
      if text[j] == '[' {
        depth := depth + 1;
      } else if text[j] == ']' {
        depth := depth - 1;
        if depth == 0 {
          return Ok(text[i..j + 1]);
        }
      }
      j := j + 1;
    }
    return Err(RuntimeError(NoCloseMessage));
  }

  // ------------------------------------------------- LaTeX to SymPy text

  predicate IsBrace(c: char) {
    c == '{' || c == '}'
  }

  /** Length of the run of non-brace characters from `p`: `[^{}]*`, greedy. */
  function PlainRun(s: string, p: nat): (n: nat)
    requires p <= |s|
    ensures p + n <= |s| && forall k | p <= k < p + n :: !IsBrace(s[k])
    ensures p + n == |s| || IsBrace(s[p + n])
    decreases |s| - p
  {
    if p < |s| && !IsBrace(s[p]) then 1 + PlainRun(s, p + 1) else 0
  }

  /** `\{([^{}]+)\}` at `p`: the group and the index after the closing brace. */
  function BraceGroup(s: string, p: nat): (r: Option<(string, nat)>)
    requires p <= |s|
    ensures r.Some? ==> p < r.value.1 <= |s|
  {
    if p < |s| && s[p] == '{' then
      var n := PlainRun(s, p + 1);
      if n > 0 && p + 1 + n < |s| && s[p + 1 + n] == '}' then Some((s[p + 1..p + 1 + n], p + 2 + n))
      else None
    else None
  }

  const Frac: string := "\\frac"

  /** `\\frac\s*\{([^{}]+)\}\s*\{([^{}]+)\}` at the start of `s`: numerator,
      denominator and the length of the match. Every repetition in the
      pattern is followed by a character it cannot match, so the greedy
      reading is the only one. */
  function ReadFrac(s: string): (r: Option<(string, string, nat)>)
    ensures r.Some? ==> 0 < r.value.2 <= |s| && s[0] == '\\'
  {
    if |s| >= 5 && s[..5] == Frac then
      var p := SkipSpaces(s, 5);
      match BraceGroup(s, p)
      case None => None
      case Some((a, p2)) =>
        var p3 := SkipSpaces(s, p2);
        match BraceGroup(s, p3)
        case None => None
        case Some((b, p4)) => Some((a, b, p4))
    else None
  }

  /** `re.sub` of the fraction pattern by `(\1)/(\2)`, scanning left to right. */
  function FracSub(s: string): string
    decreases |s|
  {
    if s == [] then []
    else
      match ReadFrac(s)
      case Some((a, b, n)) => "(" + a + ")/(" + b + ")" + FracSub(s[n..])
      case None => [s[0]] + FracSub(s[1..])
  }

  /** `normalize_expr_for_sympy(expr)`. */
  function NormalizeExpr(expr: string): string {
    if expr == [] then expr
    else
      var e := ReplaceAll(ReplaceAll(expr, "\\left", ""), "\\right", "");
      Collapse(ReplaceAll(FracSub(e), "\\", ""))
  }

  /** `c` does not occur in `s`. */
  predicate Without(s: string, c: char) {
    forall i | 0 <= i < |s| :: s[i] != c
  }

  lemma {:induction false} ReplaceAllRemoves(s: string, c: char)
    ensures Without(ReplaceAll(s, [c], ""), c)
    decreases |s|
  {
    if |s| >= 1 {
      if s[..1] == [c] {
        ReplaceAllRemoves(s[1..], c);
      } else {
        ReplaceAllRemoves(s[1..], c);
      }
    }
  }

  lemma WithoutSlice(s: string, c: char, i: nat, j: nat)
    requires Without(s, c) && i <= j <= |s|
    ensures Without(s[i..j], c)
  {
    forall k | 0 <= k < j - i ensures s[i..j][k] != c {
      assert s[i..j][k] == s[i + k];
    }
  }

  /** Every word of `ws` is free of `c`. */
  predicate AllWithout(ws: seq<string>, c: char) {
    forall k | 0 <= k < |ws| :: Without(ws[k], c)
  }

  lemma ConsWithout(w: string, ws: seq<string>, c: char)
    requires Without(w, c) && AllWithout(ws, c)
    ensures AllWithout([w] + ws, c)
  {
    forall k | 0 <= k < |[w] + ws| ensures Without(([w] + ws)[k], c) {
      if k > 0 {
        assert ([w] + ws)[k] == ws[k - 1];
      }
    }
  }

  lemma {:induction false} SplitWithout(s: string, c: char)
    requires Without(s, c)
    ensures AllWithout(Split(s), c)
    decreases |s|
  {
    var t := LStrip(s);
    if t != [] {
      WithoutSlice(s, c, |s| - |t|, |s|);
      assert Without(t, c);
      var n := WordLen(t);
      WithoutSlice(t, c, n, |t|);
      WithoutSlice(t, c, 0, n);
      assert t[n..] == t[n..|t|] && t[..n] == t[0..n];
      SplitWithout(t[n..], c);
      ConsWithout(t[..n], Split(t[n..]), c);
    }
  }

  lemma {:induction false} JoinSpaceWithout(ws: seq<string>, c: char)
    requires c != ' ' && AllWithout(ws, c)
    ensures Without(JoinSpace(ws), c)
  {
    if |ws| > 1 {
      JoinSpaceWithout(ws[1..], c);
    }
  }

  /** Collapsing whitespace brings in no character but the space. */
  lemma CollapseWithout(s: string, c: char)
    requires c != ' ' && Without(s, c)
    ensures Without(Collapse(s), c)
  {
    SplitWithout(s, c);
    JoinSpaceWithout(Split(s), c);
  }

  /** The rewritten expression has no backslash left and its whitespace is
      collapsed: single spaces between words, none at the ends. */
  lemma NormalizeExprShape(expr: string)
    ensures Without(NormalizeExpr(expr), '\\') || NormalizeExpr(expr) == expr == []
    ensures expr != [] ==> Collapsed(NormalizeExpr(expr)) && Without(NormalizeExpr(expr), '\\')
  {
    if expr != [] {
      var e := ReplaceAll(ReplaceAll(expr, "\\left", ""), "\\right", "");
      var f := ReplaceAll(FracSub(e), "\\", "");
      ReplaceAllRemoves(FracSub(e), '\\');
      CollapseWithout(f, '\\');
      CollapseIdempotent(f);
    }
  }

  lemma NoMatchWithout(s: string, pat: string, c: char)
    requires pat != [] && pat[0] == c && Without(s, c)
    ensures !Contains(s, pat)
  {
    forall i | 0 <= i <= |s| ensures !MatchesAt(s, pat, i) {
      if i + |pat| <= |s| {
        assert s[i..i + |pat|][0] == s[i];
      }
    }
  }

  lemma {:induction false} FracSubWithout(s: string)
    requires Without(s, '\\')
    ensures FracSub(s) == s
    decreases |s|
  {
    if s != [] {
      FracSubWithout(s[1..]);
    }
  }

  /** Rewriting is idempotent: an expression already rewritten comes back
      unchanged. */
  lemma NormalizeExprIdempotent(expr: string)
    ensures NormalizeExpr(NormalizeExpr(expr)) == NormalizeExpr(expr)
  {
    var r := NormalizeExpr(expr);
    if r != [] {
      NormalizeExprShape(expr);
      NoMatchWithout(r, "\\left", '\\');
      NoMatchWithout(r, "\\right", '\\');
      FracSubWithout(r);
      NoMatchWithout(r, "\\", '\\');
      var f := ReplaceAll(FracSub(ReplaceAll(ReplaceAll(expr, "\\left", ""), "\\right", "")), "\\", "");
      CollapseIdempotent(f);
    }
  }

  lemma {:induction false} PlainRunOf(s: string, p: nat, w: string)
    requires p + |w| < |s| && s[p..p + |w|] == w && IsBrace(s[p + |w|])
    requires forall k | 0 <= k < |w| :: !IsBrace(w[k])
    ensures PlainRun(s, p) == |w|
    decreases |w|
  {
    if w != [] {
      assert s[p + 1..p + 1 + |w[1..]|] == w[1..];
      PlainRunOf(s, p + 1, w[1..]);
    }
  }

  /** Operands that a fraction may hold unchanged: words without braces
      or backslashes. */
  predicate PlainOperand(a: string) {
    IsWord(a) && forall k | 0 <= k < |a| :: !IsBrace(a[k]) && a[k] != '\\'
  }

  /** A LaTeX fraction of two plain operands becomes a SymPy division. */
  lemma NormalizeFrac(a: string, b: string)
    requires PlainOperand(a) && PlainOperand(b)
    ensures NormalizeExpr("\\frac{" + a + "}{" + b + "}") == "(" + a + ")/(" + b + ")"
  {
    var s := "\\frac{" + a + "}{" + b + "}";
    var out := "(" + a + ")/(" + b + ")";
    FracLiteralNoLeftRight(a, b);
    FracLiteralSub(a, b);
    DivisionWord(a, b);
    NoMatchWithout(out, "\\", '\\');
    SplitOfWord(out);
  }

  /** A text whose only backslash is its first character, followed by `f`,
      holds no pattern that starts with a backslash not followed by `f`. */
  lemma NoEscapeButFrac(s: string, pat: string)
    requires |s| >= 2 && s[1] == 'f' && Without(s[1..], '\\')
    requires |pat| >= 2 && pat[0] == '\\' && pat[1] != 'f'
    ensures !Contains(s, pat)
  {
    forall i | 0 <= i <= |s| ensures !MatchesAt(s, pat, i) {
      if i + |pat| <= |s| {
        if i == 0 {
          assert s[i..i + |pat|][1] == s[1];
        } else {
          assert s[i..i + |pat|][0] == s[1..][i - 1];
        }
      }
    }
  }

  lemma FracLiteralNoLeftRight(a: string, b: string)
    requires PlainOperand(a) && PlainOperand(b)
    ensures var s := "\\frac{" + a + "}{" + b + "}";
            !Contains(s, "\\left") && !Contains(s, "\\right")
  {
    var s := "\\frac{" + a + "}{" + b + "}";
    var na := |a|;
    assert Without(s[1..], '\\') by {
      assert s[1..] == "frac{" + a + "}{" + b + "}";
      forall i | 0 <= i < |s[1..]| ensures s[1..][i] != '\\' {
        if 5 <= i < 5 + na {
          assert s[1..][i] == a[i - 5];
        } else if 7 + na <= i < 7 + na + |b| {
          assert s[1..][i] == b[i - 7 - na];
        }
      }
    }
    NoEscapeButFrac(s, "\\left");
    NoEscapeButFrac(s, "\\right");
  }

  /** A brace group around a plain operand at `p` reads back that operand. */
  lemma BraceGroupOf(s: string, p: nat, a: string)
    requires PlainOperand(a) && p + |a| + 2 <= |s|
    requires s[p] == '{' && s[p + 1..p + 1 + |a|] == a && s[p + 1 + |a|] == '}'
    ensures BraceGroup(s, p) == Some((a, p + 2 + |a|))
  {
    PlainRunOf(s, p + 1, a);
  }

  lemma FracLiteralSub(a: string, b: string)
    requires PlainOperand(a) && PlainOperand(b)
    ensures FracSub("\\frac{" + a + "}{" + b + "}") == "(" + a + ")/(" + b + ")"
  {
    var s := "\\frac{" + a + "}{" + b + "}";
    ReadFracLiteral(s, a, b);
    assert s[|s|..] == [];
    assert FracSub(s) == "(" + a + ")/(" + b + ")" + FracSub(s[|s|..]);
  }

  lemma ReadFracLiteral(s: string, a: string, b: string)
    requires PlainOperand(a) && PlainOperand(b) && s == "\\frac{" + a + "}{" + b + "}"
    ensures ReadFrac(s) == Some((a, b, |s|))
  {
    var g1 := "{" + a + "}";
    var g2 := "{" + b + "}";
    assert s == Frac + g1 + g2;
    assert s[..5] == Frac;
    assert s[5..5 + |g1|] == g1;
    GroupAt(s, 5, a);
    assert s[5 + |g1|..] == g2;
    GroupAt(s, 5 + |g1|, b);
  }

  /** A plain operand in braces at `p`: no spaces to skip, and the group reads back the operand. */
  lemma GroupAt(s: string, p: nat, a: string)
    requires PlainOperand(a) && p + |a| + 2 <= |s| && s[p..p + |a| + 2] == "{" + a + "}"
    ensures SkipSpaces(s, p) == p && BraceGroup(s, p) == Some((a, p + 2 + |a|))
  {
    var g := s[p..p + |a| + 2];
    assert s[p] == g[0] == '{';
    assert g[..1 + |a|] == "{" + a;
    assert ("{" + a)[1..] == a;
    assert g[1..1 + |a|] == a;
    forall i | 0 <= i < |a| ensures s[p + 1..p + 1 + |a|][i] == a[i] {
      assert s[p + 1 + i] == g[1 + i];
    }
    assert s[p + 1 + |a|] == g[1 + |a|] == '}';
    BraceGroupOf(s, p, a);
  }

  lemma DivisionWord(a: string, b: string)
    requires PlainOperand(a) && PlainOperand(b)
    ensures var out := "(" + a + ")/(" + b + ")";
            IsWord(out) && Without(out, '\\')
  {
    var out := "(" + a + ")/(" + b + ")";
    var na := |a|;
    forall i | 0 <= i < |out| ensures !IsSpace(out[i]) && out[i] != '\\' {
      if 1 <= i < 1 + na {
        assert out[i] == a[i - 1];
      } else if 4 + na <= i < 4 + na + |b| {
        assert out[i] == b[i - 4 - na];
      }
    }
  }

  // ---------------------------------------------------------- CAS job list

  const Marker: string := "---CAS-JOBS---"
  const NoMarkerMessage: string := "CAS-JOBS 섹션을 찾을 수 없습니다."
  const RepairFailedMessage: string := "CAS-JOBS JSON 파싱 실패(수복 불가)."

  /** `json.loads` on the text of a JSON array: its elements, or None when
      the text does not parse. */
  type Decoder = string -> Option<seq<Value>>

  /** The fallback scan that picks single job objects out of a broken array
      and keeps those that parse once a trailing comma is dropped. */
  type Repairer = string -> seq<Value>

  /** `pat` occurs at `m` and nowhere before it. */
  predicate FirstMatch(s: string, pat: string, m: nat) {
    MatchesAt(s, pat, m) && forall k | 0 <= k < m :: !MatchesAt(s, pat, k)
  }

  /** The code before the first marker, stripped, and the text after it. */
  function SplitAtMarker(text: string): (r: Result<(string, string)>)
    ensures r.Err? <==> !Contains(text, Marker)
    ensures r.Err? ==> r.error == RuntimeError(NoMarkerMessage)
    ensures r.Ok? ==> exists m: nat | FirstMatch(text, Marker, m) ::
                        r.value == (Strip(text[..m]), text[m + |Marker|..])
  {
    match FindFrom(text, Marker, 0)
    case None => Err(RuntimeError(NoMarkerMessage))
    case Some(m) =>
      assert FirstMatch(text, Marker, m);
      Ok((Strip(text[..m]), text[m + |Marker|..]))
  }

  /** The job list: the array as parsed, else the jobs the repair scan
      recovers, else an error. */
  function RawJobs(decode: Decoder, repair: Repairer, json: string): (r: Result<seq<Value>>)
    ensures decode(json).Some? ==> r == Ok(decode(json).value)
    ensures decode(json).None? && repair(json) != [] ==> r == Ok(repair(json))
    ensures decode(json).None? && repair(json) == [] ==> r == Err(RuntimeError(RepairFailedMessage))
  {
    match decode(json)
    case Some(jobs) => Ok(jobs)
    case None =>
      var jobs := repair(json);
      if jobs == [] then Err(RuntimeError(RepairFailedMessage)) else Ok(jobs)
  }

  /** `normalize_expr_for_sympy` on whatever `target_expr` holds: a falsy
      value comes back as it is, a string is rewritten, and anything else has
      no `replace` method. */
  function NormalizeTarget(v: Value): (r: Result<Value>)
    ensures r.Ok? <==> !Truthy(v) || v.Str?
    ensures r.Ok? ==> r.value.Str? == v.Str?
  {
    if !Truthy(v) then Ok(v)
    else if v.Str? then Ok(Str(NormalizeExpr(v.s)))
    else Err(AttributeError)
  }

  /** Normalising a target twice changes nothing more. */
  lemma NormalizeTargetIdempotent(v: Value)
    requires NormalizeTarget(v).Ok?
    ensures NormalizeTarget(NormalizeTarget(v).value) == NormalizeTarget(v)
  {
    if Truthy(v) {
      NormalizeExprIdempotent(v.s);
    }
  }

  /** The id a job without one receives: `S1`, `S2`, ... */
  function JobId(idx: nat): string {
    "S" + NatToString(idx)
  }

  /** The loop body for the job at 1-based position `idx`:
      `job.setdefault("id", f"S{idx}")` and the rewrite of `target_expr`. */
  function LabelJob(job: Value, idx: nat): Result<Value> {
    if !job.Dict? then Err(AttributeError)
    else
      var d := SetDefault(job.entries, "id", Str(JobId(idx))).0;
      match NormalizeTarget(GetOr(d, "target_expr", Str("")))
      case Err(e) => Err(e)
      case Ok(t) => Ok(Dict(Put(d, "target_expr", t)))
  }

  /** A job fails exactly when it is not a dict or its target cannot be
      rewritten; otherwise it keeps its id or receives `S<idx>`, its target
      is rewritten, and every other key reads as before. */
  lemma LabelJobSpec(job: Value, idx: nat)
    ensures LabelJob(job, idx).Ok?
            <==> job.Dict? && NormalizeTarget(GetOr(job.entries, "target_expr", Str(""))).Ok?
    ensures !job.Dict? ==> LabelJob(job, idx) == Err(AttributeError)
    ensures LabelJob(job, idx).Ok? ==>
              var out := LabelJob(job, idx).value;
              && out.Dict?
              && Lookup(out.entries, "id")
                 == (if HasKey(job.entries, "id") then Lookup(job.entries, "id") else Some(Str(JobId(idx))))
              && Lookup(out.entries, "target_expr")
                 == Some(NormalizeTarget(GetOr(job.entries, "target_expr", Str(""))).value)
              && forall k :: k != "id" && k != "target_expr" ==> Lookup(out.entries, k) == Lookup(job.entries, k)
  {
    if job.Dict? {
      var d := SetDefault(job.entries, "id", Str(JobId(idx))).0;
      LookupSetDefault(job.entries, "id", Str(JobId(idx)), "target_expr");
      assert GetOr(d, "target_expr", Str("")) == GetOr(job.entries, "target_expr", Str(""));
      var t := NormalizeTarget(GetOr(d, "target_expr", Str("")));
      if t.Ok? {
        LookupSpec(job.entries, "id");
        LookupSetDefault(job.entries, "id", Str(JobId(idx)), "id");
        LookupPut(d, "target_expr", t.value, "id");
        LookupPut(d, "target_expr", t.value, "target_expr");
        forall k | k != "id" && k != "target_expr"
          ensures Lookup(Put(d, "target_expr", t.value), k) == Lookup(job.entries, k)
        {
          LookupPut(d, "target_expr", t.value, k);
          LookupSetDefault(job.entries, "id", Str(JobId(idx)), k);
        }
      }
    }
  }

  /** The body of a labelling loop: a job and its 1-based position. */
  type Labeller = (Value, nat) -> Result<Value>

  /** The first `n` jobs labelled in order; the first failure ends the loop. */
  function LabelPrefix(step: Labeller, jobs: seq<Value>, n: nat): (r: Result<seq<Value>>)
    requires n <= |jobs|
    ensures r.Ok? ==> |r.value| == n
    decreases n
  {
    if n == 0 then Ok([])
    else
      match LabelPrefix(step, jobs, n - 1)
      case Err(e) => Err(e)
      case Ok(done) =>
        match step(jobs[n - 1], n)
        case Err(e) => Err(e)
        case Ok(j) => Ok(done + [j])
  }

  /** Job `k` is the first whose labelling fails. */
  predicate FirstFailure(step: Labeller, jobs: seq<Value>, k: nat) {
    k < |jobs| && step(jobs[k], k + 1).Err?
    && forall i | 0 <= i < k :: step(jobs[i], i + 1).Ok?
  }

  /** Once the loop has failed, later jobs do not change the outcome. */
  lemma {:induction false} LabelPrefixErrSticks(step: Labeller, jobs: seq<Value>, n: nat, m: nat)
    requires n <= m <= |jobs| && LabelPrefix(step, jobs, n).Err?
    ensures LabelPrefix(step, jobs, m) == LabelPrefix(step, jobs, n)
    decreases m
  {
    if m > n {
      LabelPrefixErrSticks(step, jobs, n, m - 1);
    }
  }

  /** Labelling succeeds exactly when every job does, and then job `k` is
      the labelled `jobs[k]` with position `k + 1`; a failure is the error
      of the first job that fails. */
  lemma {:induction false} LabelPrefixSpec(step: Labeller, jobs: seq<Value>, n: nat)
    requires n <= |jobs|
    ensures LabelPrefix(step, jobs, n).Ok? <==> forall k | 0 <= k < n :: step(jobs[k], k + 1).Ok?
    ensures LabelPrefix(step, jobs, n).Ok? ==>
              forall k | 0 <= k < n :: LabelPrefix(step, jobs, n).value[k] == step(jobs[k], k + 1).value
    ensures LabelPrefix(step, jobs, n).Err? ==>
              exists k: nat | FirstFailure(step, jobs, k) ::
                k < n && LabelPrefix(step, jobs, n).error == step(jobs[k], k + 1).error
    decreases n
  {
    if n > 0 {
      LabelPrefixSpec(step, jobs, n - 1);
      var prev := LabelPrefix(step, jobs, n - 1);
      if prev.Ok? {
        var last := step(jobs[n - 1], n);
        if last.Err? {
          assert FirstFailure(step, jobs, n - 1);
        } else {
          var r := prev.value + [last.value];
          assert LabelPrefix(step, jobs, n) == Ok(r);
          forall k | 0 <= k < n ensures r[k] == step(jobs[k], k + 1).value {
            if k < n - 1 {
              assert r[k] == prev.value[k];
            }
          }
        }
      } else {
        var k: nat :| FirstFailure(step, jobs, k) && k < n - 1 && prev.error == step(jobs[k], k + 1).error;
        assert LabelPrefix(step, jobs, n) == prev;
      }
    }
  }

  /** The `for idx, job in enumerate(jobs_raw, start=1)` loop, rewriting each
      job in place. */
  method LabelJobs(step: Labeller, jobs: seq<Value>) returns (r: Result<seq<Value>>)
    ensures r == LabelPrefix(step, jobs, |jobs|)
  {
    var cur := jobs;
    var i := 0;
    while i < |cur|
      invariant i <= |cur| == |jobs|
      invariant LabelPrefix(step, jobs, i) == Ok(cur[..i])
      invariant cur[i..] == jobs[i..]
    {
      assert cur[i] == jobs[i];
      var j := step(cur[i], i + 1);
      if j.Err? {
        LabelPrefixErrSticks(step, jobs, i + 1, |jobs|);
        return Err(j.error);
      }
      var done := cur[..i];
      cur := cur[i := j.value];
      assert cur[..i + 1] == done + [j.value];
      assert cur[i + 1..] == jobs[i + 1..];
      i := i + 1;
    }
    assert cur[..i] == cur;
    return Ok(cur);
  }

  /** `extract_jobs_and_code(code_text)`: the labelled jobs and the code
      before the marker. */
  function ExtractJobs(decode: Decoder, repair: Repairer, codeText: string): (r: Result<(seq<Value>, string)>)
    ensures !Contains(StripCodeFences(codeText), Marker) ==> r == Err(RuntimeError(NoMarkerMessage))
    ensures r.Ok? ==> exists m: nat | FirstMatch(StripCodeFences(codeText), Marker, m) ::
                        r.value.1 == Strip(StripCodeFences(codeText)[..m])
  {
    var text := StripCodeFences(codeText);
    var parts :- SplitAtMarker(text);
    var json :- BalancedArray(parts.1, 0);
    var raw :- RawJobs(decode, repair, json);
    var jobs :- LabelPrefix(LabelJob, raw, |raw|);
    Ok((jobs, parts.0))
  }

  method ExtractJobsAndCode(decode: Decoder, repair: Repairer, codeText: string)
    returns (r: Result<(seq<Value>, string)>)
    ensures r == ExtractJobs(decode, repair, codeText)
  {
    var text := StripCodeFences(codeText);
    var parts := SplitAtMarker(text);
    if parts.Err? {
      return Err(parts.error);
    }
    var json := FindBalancedJsonArray(parts.value.1, 0);
    if json.Err? {
      return Err(json.error);
    }
    var raw := RawJobs(decode, repair, json.value);
    if raw.Err? {
      return Err(raw.error);
    }
    var jobs := LabelJobs(LabelJob, raw.value);
    if jobs.Err? {
      return Err(jobs.error);
    }
    return Ok((jobs.value, parts.value.0));
  }

  /** A marker cannot start inside a text that ends with a newline and
      holds no marker of its own, so in `code + Marker + rest` the first
      marker is the one after `code`. */
  lemma MarkerAfterCode(code: string, rest: string)
    requires code != [] && code[|code| - 1] == '\n' && !Contains(code, Marker)
    ensures FirstMatch(code + Marker + rest, Marker, |code|)
  {
    var text := code + Marker + rest;
    assert text[|code|..|code| + |Marker|] == Marker;
    forall k | 0 <= k < |code| ensures !MatchesAt(text, Marker, k) {
      if k + |Marker| <= |code| {
        assert text[k..k + |Marker|] == code[k..k + |Marker|];
        assert !MatchesAt(code, Marker, k);
      } else {
        assert text[k..k + |Marker|][|code| - 1 - k] == text[|code| - 1] == '\n';
      }
    }
  }

  /** A text that starts and ends with a visible character other than a
      backtick carries no fence. */
  lemma NoFences(text: string)
    requires text != [] && !IsSpace(text[0]) && text[0] != '`'
    requires !IsSpace(text[|text| - 1]) && text[|text| - 1] != '`'
    ensures StripCodeFences(text) == text
  {
    assert SkipSpaces(text, 0) == 0;
    assert OpeningFenceEnd(text) == 0;
    assert SkipSpacesBack(text, |text|) == |text|;
    assert ClosingFenceStart(text) == |text|;
  }

  /** The answer the generator is asked for — code, the marker, then a
      JSON array of jobs that parses — splits into that code, stripped, and
      the parsed jobs labelled in order. */
  lemma ExtractComposed(decode: Decoder, repair: Repairer, code: string, json: string)
    requires code != [] && !IsSpace(code[0]) && code[0] != '`' && code[|code| - 1] == '\n'
    requires !Contains(code, Marker)
    requires BalancedArray(json, 0) == Ok(json) && decode(json).Some?
    ensures ExtractJobs(decode, repair, code + Marker + json)
            == match LabelPrefix(LabelJob, decode(json).value, |decode(json).value|)
               case Ok(jobs) => Ok((jobs, Strip(code)))
               case Err(e) => Err(e)
  {
    BalancedArraySpec(json, 0);
    SplitComposed(code, json);
    var raw := decode(json).value;
    assert RawJobs(decode, repair, json) == Ok(raw);
  }

  /** The composed text has no fences to strip and splits at its one marker. */
  lemma SplitComposed(code: string, json: string)
    requires code != [] && !IsSpace(code[0]) && code[0] != '`' && code[|code| - 1] == '\n'
    requires !Contains(code, Marker)
    requires json != [] && json[|json| - 1] == ']'
    ensures StripCodeFences(code + Marker + json) == code + Marker + json
    ensures SplitAtMarker(code + Marker + json) == Ok((Strip(code), json))
  {
    var text := code + Marker + json;
    assert text[|text| - 1] == json[|json| - 1];
    NoFences(text);
    MarkerAfterCode(code, json);
    FirstMatchUnique(text, Marker, |code|);
    assert text[..|code|] == code;
    assert text[|code| + |Marker|..] == json;
  }

  /** The first match is unique, so it is what `SplitAtMarker` uses. */
  lemma FirstMatchUnique(s: string, pat: string, m: nat)
    requires FirstMatch(s, pat, m)
    ensures forall m': nat | FirstMatch(s, pat, m') :: m' == m
    ensures FindFrom(s, pat, 0) == Some(m)
  {
  }

  // ------------------------------------------------------------ placeholders

  /** A character of `[A-Za-z0-9_\-]`. */
  predicate IsIdChar(c: char) {
    'A' <= c <= 'Z' || 'a' <= c <= 'z' || '0' <= c <= '9' || c == '_' || c == '-'
  }

  predicate IsId(id: string) {
    id != [] && forall k | 0 <= k < |id| :: IsIdChar(id[k])
  }

  const TagOpen: string := "[[CAS:"

  /** The placeholder `[[CAS:<id>]]`. */
  function Tag(id: string): string {
    TagOpen + id + "]]"
  }

  /** Length of the run of id characters from `p`, greedy. */
  function IdRun(s: string, p: nat): (n: nat)
    requires p <= |s|
    ensures p + n <= |s| && forall k | p <= k < p + n :: IsIdChar(s[k])
    ensures p + n == |s| || !IsIdChar(s[p + n])
    decreases |s| - p
  {
    if p < |s| && IsIdChar(s[p]) then 1 + IdRun(s, p + 1) else 0
  }

  /** The id of the placeholder `s` starts with, if it starts with one. The
      id run is followed by a character outside it, so the greedy reading
      is the only one. */
  function LeadingId(s: string): (r: Option<string>)
    ensures r.Some? ==> IsId(r.value) && MatchesAt(s, Tag(r.value), 0)
  {
    if |s| >= 6 && s[..6] == TagOpen then
      var n := IdRun(s, 6);
      if n > 0 && 8 + n <= |s| && s[6 + n..8 + n] == "]]" then
        var id := s[6..6 + n];
        assert s[..8 + n] == s[..6] + id + s[6 + n..8 + n];
        Some(id)
      else None
    else None
  }

  lemma {:induction false} IdRunOf(s: string, p: nat, w: string)
    requires p + |w| < |s| && s[p..p + |w|] == w && !IsIdChar(s[p + |w|])
    requires forall k | 0 <= k < |w| :: IsIdChar(w[k])
    ensures IdRun(s, p) == |w|
    decreases |w|
  {
    if w != [] {
      assert s[p] == w[0];
      assert s[p + 1..p + 1 + |w[1..]|] == w[1..];
      IdRunOf(s, p + 1, w[1..]);
    }
  }

  /** `_PLACEHOLDER_RE.match`: a text starts with `[[CAS:<id>]]` exactly
      when `LeadingId` reads that id. */
  lemma LeadingIdComplete(s: string, id: string)
    requires IsId(id)
    ensures MatchesAt(s, Tag(id), 0) <==> LeadingId(s) == Some(id)
  {
    if MatchesAt(s, Tag(id), 0) {
      var t := Tag(id);
      var n := |id|;
      assert s[..|t|] == t;
      assert s[..6] == t[..6] == TagOpen;
      assert s[6..6 + n] == t[6..6 + n] == id;
      assert s[6 + n] == t[6 + n] == ']';
      IdRunOf(s, 6, id);
      assert s[6 + n..8 + n] == t[6 + n..8 + n] == "]]";
    }
  }

  /** Some placeholder occurs in `s` at or after `i`. */
  function PlaceholderFrom(s: string, i: nat): (r: bool)
    requires i <= |s|
    decreases |s| - i
  {
    if LeadingId(s[i..]).Some? then true
    else if i < |s| then PlaceholderFrom(s, i + 1)
    else false
  }

  /** A match at `i` in `s` is a match at the start of `s[i..]`. */
  lemma MatchesAtSuffix(s: string, pat: string, i: nat)
    requires i <= |s|
    ensures MatchesAt(s, pat, i) <==> MatchesAt(s[i..], pat, 0)
  {
    if i + |pat| <= |s| {
      assert s[i..][..|pat|] == s[i..i + |pat|];
    }
  }

  /** `contains_placeholder(text)`: `text or ""` searched for a placeholder. */
  function ContainsPlaceholder(text: Option<string>): (r: bool) {
    var s := if text.Some? then text.value else "";
    PlaceholderFrom(s, 0)
  }

  lemma {:induction false} PlaceholderFromSpec(s: string, i: nat)
    requires i <= |s|
    ensures PlaceholderFrom(s, i)
            <==> exists j: nat, id | i <= j <= |s| && IsId(id) :: MatchesAt(s, Tag(id), j)
    decreases |s| - i
  {
    var l := LeadingId(s[i..]);
    if l.Some? {
      MatchesAtSuffix(s, Tag(l.value), i);
    } else {
      forall id | IsId(id) ensures !MatchesAt(s, Tag(id), i) {
        LeadingIdComplete(s[i..], id);
        MatchesAtSuffix(s, Tag(id), i);
      }
      if i < |s| {
        PlaceholderFromSpec(s, i + 1);
      } else {
        forall j: nat, id | i <= j <= |s| && IsId(id) ensures !MatchesAt(s, Tag(id), j) {
        }
      }
    }
  }

  /** A text holds a placeholder exactly when some `[[CAS:<id>]]` with a
      well-formed id occurs in it; no text holds one. */
  lemma ContainsPlaceholderSpec(text: Option<string>)
    ensures ContainsPlaceholder(text)
            <==> text.Some? && exists j: nat, id | j <= |text.value| && IsId(id) :: MatchesAt(text.value, Tag(id), j)
  {
    var s := if text.Some? then text.value else "";
    PlaceholderFromSpec(s, 0);
  }

  /** `substitute_placeholders(expr, results)`: every placeholder whose id
      has a result becomes `(<result_py>)`; the others stay as they are.
      The scan resumes after each placeholder, as `re.sub` does. */
  function Subst(s: string, results: map<string, CasResult>): string
    decreases |s|
  {
    if s == [] then []
    else
      match LeadingId(s)
      case Some(id) =>
        (if id in results then "(" + results[id].resultPy + ")" else Tag(id))
        + Subst(s[|Tag(id)|..], results)
      case None => [s[0]] + Subst(s[1..], results)
  }

  /** No id of a placeholder in `s` has a result. */
  predicate NoKnownPlaceholder(s: string, results: map<string, CasResult>) {
    forall j: nat, id | j <= |s| && IsId(id) && MatchesAt(s, Tag(id), j) :: id !in results
  }

  lemma NoKnownSuffix(s: string, results: map<string, CasResult>, t: nat)
    requires t <= |s| && NoKnownPlaceholder(s, results)
    ensures NoKnownPlaceholder(s[t..], results)
  {
    forall j: nat, id | j <= |s[t..]| && IsId(id) && MatchesAt(s[t..], Tag(id), j)
      ensures id !in results
    {
      assert s[t..][j..j + |Tag(id)|] == s[t + j..t + j + |Tag(id)|];
      assert MatchesAt(s, Tag(id), t + j);
    }
  }

  /** Without a placeholder whose id has a result, substitution changes
      nothing. */
  lemma {:induction false} SubstIdentity(s: string, results: map<string, CasResult>)
    requires NoKnownPlaceholder(s, results)
    ensures Subst(s, results) == s
    decreases |s|
  {
    if s != [] {
      match LeadingId(s)
      case Some(id) =>
        var n := |Tag(id)|;
        assert MatchesAt(s, Tag(id), 0);
        NoKnownSuffix(s, results, n);
        SubstIdentity(s[n..], results);
        assert s == s[..n] + s[n..];
      case None =>
        NoKnownSuffix(s, results, 1);
        SubstIdentity(s[1..], results);
        assert s == [s[0]] + s[1..];
    }
  }

  /** Only a `[` can open a placeholder. */
  /** A character other than `[` passes through the substitution. */
  lemma SubstCons(s: string, results: map<string, CasResult>)
    requires s != [] && s[0] != '['
    ensures Subst(s, results) == [s[0]] + Subst(s[1..], results)
  {
    NoLeadingId(s);
  }

  lemma NoLeadingId(s: string)
    requires s != [] && s[0] != '['
    ensures LeadingId(s).None?
  {
    if |s| >= 6 {
      assert s[..6][0] == s[0];
    }
  }

  /** Text without `[` passes through substitution unchanged. */
  lemma {:induction false} SubstPlain(t: string, rest: string, results: map<string, CasResult>)
    requires Without(t, '[')
    ensures Subst(t + rest, results) == t + Subst(rest, results)
    decreases |t|
  {
    if t != [] {
      var s := t + rest;
      var t' := t[1..];
      assert s[0] == t[0] && s[1..] == t' + rest;
      SubstCons(s, results);
      WithoutSlice(t, '[', 1, |t|);
      assert t[1..|t|] == t';
      SubstPlain(t', rest, results);
      ConsAssoc(t[0], t', Subst(rest, results));
      assert t == [t[0]] + t';
    } else {
      assert t + rest == rest;
    }
  }

  lemma ConsAssoc(c: char, a: string, b: string)
    ensures [c] + (a + b) == ([c] + a) + b
  {
  }

  /** A placeholder whose id has a result, between texts without `[`, is
      replaced by the parenthesised Python form of the result. */
  lemma SubstReplaces(pre: string, id: string, post: string, results: map<string, CasResult>)
    requires IsId(id) && id in results && Without(pre, '[') && Without(post, '[')
    ensures Subst(pre + Tag(id) + post, results) == pre + "(" + results[id].resultPy + ")" + post
  {
    var s := Tag(id) + post;
    assert pre + Tag(id) + post == pre + s;
    SubstPlain(pre, s, results);
    SubstTag(id, post, results);
    var py := "(" + results[id].resultPy + ")";
    assert pre + (py + post) == pre + py + post;
  }

  lemma SubstTag(id: string, post: string, results: map<string, CasResult>)
    requires IsId(id) && id in results && Without(post, '[')
    ensures Subst(Tag(id) + post, results) == "(" + results[id].resultPy + ")" + post
  {
    var t := Tag(id);
    var s := t + post;
    assert s[0..|t|] == t;
    assert MatchesAt(s, t, 0);
    LeadingIdComplete(s, id);
    assert s[|t|..] == post;
    SubstPlain(post, [], results);
    assert post + [] == post;
  }
}
