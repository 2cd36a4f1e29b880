/**
 * The final render step (apps/g_render/fill.py): every `[[CAS:<id>]]`
 * placeholder of the drafted scene code is replaced by the LaTeX form of
 * the computed result, in braces; a placeholder left over is an error.
 */
module Fill {
  import opened Outcomes
  import opened PyText
  import opened CasText

  const UnreplacedMessage: string := "Unreplaced CAS placeholder remains"

  /** What replaces the placeholder of `r.id`. */
  function Braced(r: CasResult): string {
    "{" + r.resultTex + "}"
  }

  /** The ids of `rs`. */
  function Ids(rs: seq<CasResult>): set<string> {
    set i | 0 <= i < |rs| :: rs[i].id
  }

  /** The code and the `seen` set after the loop has visited the first `n`
      results: a result whose id was seen before is skipped, any other one
      replaces every placeholder of its id. */
  function FillPrefix(draft: string, repls: seq<CasResult>, n: nat): (string, set<string>)
    requires n <= |repls|
  {
    if n == 0 then (draft, {})
    else
      var (code, seen) := FillPrefix(draft, repls, n - 1);
      var r := repls[n - 1];
      if r.id in seen then (code, seen)
      else (ReplaceAll(code, Tag(r.id), Braced(r)), seen + {r.id})
  }

  /** `fill_placeholders(draft, repls)`: the final code, or the error raised
      when a placeholder is left. */
  function Filled(draft: string, repls: seq<CasResult>): (r: Result<string>)
    ensures !Contains(draft, TagOpen) ==> r == Ok(draft)
    ensures r.Ok? ==> !Contains(r.value, TagOpen)
    ensures r.Err? ==> r.error == ValueError(UnreplacedMessage)
  {
    if !Contains(draft, TagOpen) then Ok(draft)
    else
      var code := FillPrefix(draft, repls, |repls|).0;
      if Contains(code, TagOpen) then Err(ValueError(UnreplacedMessage)) else Ok(code)
  }

  method FillPlaceholders(draft: string, repls: seq<CasResult>) returns (r: Result<string>)
    ensures r == Filled(draft, repls)
  {
    if !Contains(draft, TagOpen) {
      return Ok(draft);
    }
    var code := draft;
    var seen: set<string> := {};
    for i := 0 to |repls|
      invariant (code, seen) == FillPrefix(draft, repls, i)
    {
      var result := repls[i];
      if result.id in seen {
        continue;
      }
      seen := seen + {result.id};
      code := ReplaceAll(code, Tag(result.id), Braced(result));
    }
    if Contains(code, TagOpen) {
      return Err(ValueError(UnreplacedMessage));
    }
    return Ok(code);
  }

  // ------------------------------------------- first occurrences of an id

  /** The results among the first `n` whose id has not occurred before. */
  function FirstOccurrences(repls: seq<CasResult>, n: nat): seq<CasResult>
    requires n <= |repls|
  {
    if n == 0 then []
    else
      var r := repls[n - 1];
      FirstOccurrences(repls, n - 1) + (if r.id in Ids(repls[..n - 1]) then [] else [r])
  }

  /** Every replacement of `rs`, in order. */
  function ReplaceEach(code: string, rs: seq<CasResult>): string {
    if rs == [] then code
    else
      var r := rs[|rs| - 1];
      ReplaceAll(ReplaceEach(code, rs[..|rs| - 1]), Tag(r.id), Braced(r))
  }

  lemma IdsSnoc(rs: seq<CasResult>, r: CasResult)
    ensures Ids(rs + [r]) == Ids(rs) + {r.id}
  {
    var t := rs + [r];
    forall x | x in Ids(t) ensures x in Ids(rs) + {r.id} {
      var i :| 0 <= i < |t| && t[i].id == x;
      if i < |rs| {
        assert rs[i] == t[i];
      }
    }
    forall x | x in Ids(rs) + {r.id} ensures x in Ids(t) {
      if x in Ids(rs) {
        var i :| 0 <= i < |rs| && rs[i].id == x;
        assert t[i] == rs[i];
      } else {
        assert t[|rs|] == r;
      }
    }
  }

  /** The loop replaces with the first result of each id, in list order,
      and skips the rest; `seen` ends as the set of all ids visited. */
  lemma {:induction false} FillPrefixSpec(draft: string, repls: seq<CasResult>, n: nat)
    requires n <= |repls|
    ensures FillPrefix(draft, repls, n) == (ReplaceEach(draft, FirstOccurrences(repls, n)), Ids(repls[..n]))
  {
    if n > 0 {
      FillPrefixSpec(draft, repls, n - 1);
      var f := FirstOccurrences(repls, n - 1);
      var r := repls[n - 1];
      assert repls[..n] == repls[..n - 1] + [r];
      IdsSnoc(repls[..n - 1], r);
      if r.id !in Ids(repls[..n - 1]) {
        assert (f + [r])[..|f|] == f;
      } else {
        assert FirstOccurrences(repls, n) == f + [] == f;
        assert Ids(repls[..n - 1]) + {r.id} == Ids(repls[..n - 1]);
      }
    } else {
      assert Ids(repls[..0]) == {};
    }
  }

  /** The results the loop uses have distinct ids and cover every id. */
  lemma {:induction false} FirstOccurrencesDistinct(repls: seq<CasResult>, n: nat)
    requires n <= |repls|
    ensures var f := FirstOccurrences(repls, n);
            && Ids(f) == Ids(repls[..n])
            && forall i, j | 0 <= i < j < |f| :: f[i].id != f[j].id
  {
    if n > 0 {
      FirstOccurrencesDistinct(repls, n - 1);
      var f := FirstOccurrences(repls, n - 1);
      var r := repls[n - 1];
      assert repls[..n] == repls[..n - 1] + [r];
      IdsSnoc(repls[..n - 1], r);
      if r.id !in Ids(repls[..n - 1]) {
        IdsSnoc(f, r);
        var g := f + [r];
        forall i, j | 0 <= i < j < |g| ensures g[i].id != g[j].id {
          if j < |f| {
            assert g[i] == f[i] && g[j] == f[j];
          } else {
            assert g[i] == f[i];
            assert f[i].id in Ids(f);
          }
        }
      } else {
        assert f + [] == f;
      }
    }
  }

  /** Dropping results whose id occurred earlier changes nothing. */
  lemma FilledFirstOccurrences(draft: string, repls: seq<CasResult>)
    ensures Filled(draft, repls) == Filled(draft, FirstOccurrences(repls, |repls|))
  {
    var f := FirstOccurrences(repls, |repls|);
    FillPrefixSpec(draft, repls, |repls|);
    FirstOccurrencesDistinct(repls, |repls|);
    FillPrefixSpec(draft, f, |f|);
    FirstOccurrencesOfDistinct(f, |f|);
    assert f[..|f|] == f;
  }

  /** A list without repeated ids is its own first occurrences. */
  lemma {:induction false} FirstOccurrencesOfDistinct(rs: seq<CasResult>, n: nat)
    requires n <= |rs| && forall i, j | 0 <= i < j < |rs| :: rs[i].id != rs[j].id
    ensures FirstOccurrences(rs, n) == rs[..n]
  {
    if n > 0 {
      FirstOccurrencesOfDistinct(rs, n - 1);
      var p := rs[..n - 1];
      assert rs[n - 1].id !in Ids(p) by {
        forall i | 0 <= i < |p| ensures p[i].id != rs[n - 1].id {
          assert p[i] == rs[i];
        }
      }
      assert rs[..n] == rs[..n - 1] + [rs[n - 1]];
    }
  }

  // ------------------------------------------------------------ one result

  lemma WithoutConcat(a: string, b: string, c: char)
    requires Without(a, c) && Without(b, c)
    ensures Without(a + b, c)
  {
    forall i | 0 <= i < |a + b| ensures (a + b)[i] != c {
      if i >= |a| {
        assert (a + b)[i] == b[i - |a|];
      }
    }
  }

  /** Text without the first character of the pattern passes through a
      replacement unchanged. */
  lemma {:induction false} ReplacePlain(t: string, rest: string, pat: string, rep: string)
    requires pat != [] && Without(t, pat[0])
    ensures ReplaceAll(t + rest, pat, rep) == t + ReplaceAll(rest, pat, rep)
    decreases |t|
  {
    if t == [] {
      assert t + rest == rest;
    } else {
      var s := t + rest;
      if |s| < |pat| {
        assert ReplaceAll(rest, pat, rep) == rest;
        return;
      }
      assert s[..|pat|][0] == t[0];
      assert s[1..] == t[1..] + rest;
      WithoutSlice(t, pat[0], 1, |t|);
      assert t[1..|t|] == t[1..];
      ReplacePlain(t[1..], rest, pat, rep);
      assert t == [t[0]] + t[1..];
    }
  }

  /** The one placeholder of `id` between texts without `[` is replaced. */
  lemma ReplaceOne(pre: string, id: string, post: string, rep: string)
    requires Without(pre, '[') && Without(post, '[')
    ensures ReplaceAll(pre + Tag(id) + post, Tag(id), rep) == pre + rep + post
  {
    var pat := Tag(id);
    assert pre + pat + post == pre + (pat + post);
    ReplacePlain(pre, pat + post, pat, rep);
    assert (pat + post)[..|pat|] == pat;
    assert (pat + post)[|pat|..] == post;
    NoMatchWithout(post, pat, '[');
    assert ReplaceAll(pat + post, pat, rep) == rep + post;
  }

  /** One result for the one placeholder of a draft: the placeholder becomes
      the braced LaTeX form and the draft succeeds, as long as no `[` occurs
      elsewhere. */
  lemma FillOne(pre: string, post: string, r: CasResult)
    requires Without(pre, '[') && Without(post, '[') && Without(r.resultTex, '[')
    ensures Filled(pre + Tag(r.id) + post, [r]) == Ok(pre + Braced(r) + post)
  {
    var draft := pre + Tag(r.id) + post;
    assert draft[|pre|..|pre| + 6] == TagOpen;
    assert MatchesAt(draft, TagOpen, |pre|);
    var out := pre + Braced(r) + post;
    ReplaceOne(pre, r.id, post, Braced(r));
    assert FillPrefix(draft, [r], 1).0 == out;
    assert Without(out, '[') by {
      WithoutConcat("{", r.resultTex, '[');
      WithoutConcat("{" + r.resultTex, "}", '[');
      WithoutConcat(pre, Braced(r), '[');
      WithoutConcat(pre + Braced(r), post, '[');
    }
    NoMatchWithout(out, TagOpen, '[');
  }
}
