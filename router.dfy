/**
 * Problem routing (apps/b_graphsampling/router.py): a problem with a
 * picture goes to the vision pipeline, any other to the text pipeline, and
 * the presence of list-like blocks is reported beside it. Three entry
 * points read the same facts from a problem document, from raw OCR boxes
 * and from the files of a problem directory.
 */
module Router {
  import opened Outcomes
  import opened PyText
  import opened PyValue

  const PictureCats: set<string> := {"Picture"}
  const ListCats: set<string> := {"List", "List-item", "Choice", "Options"}

  /** The routing dict `{"mode", "has_diagram", "has_list"}`. */
  datatype Route = Route(mode: string, hasDiagram: bool, hasList: bool)

  function MakeRoute(hasDiagram: bool, hasList: bool): (r: Route)
    ensures r.hasDiagram == hasDiagram && r.hasList == hasList
    ensures r.mode == "vision" <==> hasDiagram
    ensures r.mode == "vision" || r.mode == "text"
  {
    Route(if hasDiagram then "vision" else "text", hasDiagram, hasList)
  }

  /** A value a set can be asked about; lists, dicts and arrays are not. */
  predicate Hashable(v: Value) {
    !(v.List? || v.Dict? || v.Array?)
  }

  /** A string of `cats`. */
  predicate IsCat(v: Value, cats: set<string>) {
    v.Str? && v.s in cats
  }

  /** `c in cats` for a set of strings. */
  function In(c: Value, cats: set<string>): (r: Result<bool>)
    ensures r.Err? <==> !Hashable(c)
    ensures r.Ok? ==> (r.value <==> IsCat(c, cats))
  {
    if !Hashable(c) then Err(TypeError)
    else Ok(c.Str? && c.s in cats)
  }

  /** `any(c in cats for c in cs)`: stops at the first hit, so an unhashable
      value after it raises nothing. */
  function AnyIn(cs: seq<Value>, cats: set<string>): Result<bool> {
    if cs == [] then Ok(false)
    else
      match In(cs[0], cats)
      case Err(e) => Err(e)
      case Ok(hit) => if hit then Ok(true) else AnyIn(cs[1..], cats)
  }

  /** The scan fails exactly when an unhashable value comes before every
      hit; otherwise it reports whether some value is one of `cats`. */
  lemma {:induction false} AnyInSpec(cs: seq<Value>, cats: set<string>)
    ensures AnyIn(cs, cats).Err?
            <==> exists i | 0 <= i < |cs| :: !Hashable(cs[i]) && forall j | 0 <= j < i :: !IsCat(cs[j], cats)
    ensures AnyIn(cs, cats).Err? ==> AnyIn(cs, cats).error == TypeError
    ensures AnyIn(cs, cats).Ok? ==> (AnyIn(cs, cats).value <==> exists i | 0 <= i < |cs| :: IsCat(cs[i], cats))
  {
    if cs != [] {
      AnyInSpec(cs[1..], cats);
      if Hashable(cs[0]) && !IsCat(cs[0], cats) {
        RaisesCons(cs, cats);
        HitCons(cs, cats);
      }
    }
  }

  /** Past a hashable non-hit, the scan raises in the list exactly when it raises in the rest. */
  lemma RaisesCons(cs: seq<Value>, cats: set<string>)
    requires cs != [] && Hashable(cs[0]) && !IsCat(cs[0], cats)
    ensures (exists i | 0 <= i < |cs| :: !Hashable(cs[i]) && forall j | 0 <= j < i :: !IsCat(cs[j], cats))
            <==> (exists i | 0 <= i < |cs[1..]| :: !Hashable(cs[1..][i]) && forall j | 0 <= j < i :: !IsCat(cs[1..][j], cats))
  {
    var t := cs[1..];
    if exists i | 0 <= i < |t| :: !Hashable(t[i]) && forall j | 0 <= j < i :: !IsCat(t[j], cats) {
      var i :| 0 <= i < |t| && !Hashable(t[i]) && forall j | 0 <= j < i :: !IsCat(t[j], cats);
      assert cs[i + 1] == t[i];
      forall j | 0 <= j < i + 1 ensures !IsCat(cs[j], cats) {
        if j > 0 {
          assert cs[j] == t[j - 1];
        }
      }
    }
    if exists i | 0 <= i < |cs| :: !Hashable(cs[i]) && forall j | 0 <= j < i :: !IsCat(cs[j], cats) {
      var i :| 0 <= i < |cs| && !Hashable(cs[i]) && forall j | 0 <= j < i :: !IsCat(cs[j], cats);
      assert i > 0 && t[i - 1] == cs[i];
      forall j | 0 <= j < i - 1 ensures !IsCat(t[j], cats) {
        assert t[j] == cs[j + 1];
      }
    }
  }

  /** Past a non-hit, the list has a hit exactly when the rest has one. */
  lemma HitCons(cs: seq<Value>, cats: set<string>)
    requires cs != [] && !IsCat(cs[0], cats)
    ensures (exists i | 0 <= i < |cs| :: IsCat(cs[i], cats)) <==> (exists i | 0 <= i < |cs[1..]| :: IsCat(cs[1..][i], cats))
  {
    var t := cs[1..];
    if exists i | 0 <= i < |cs| :: IsCat(cs[i], cats) {
      var i :| 0 <= i < |cs| && IsCat(cs[i], cats);
      assert i > 0 && t[i - 1] == cs[i];
    }
    if exists i | 0 <= i < |t| :: IsCat(t[i], cats) {
      var i :| 0 <= i < |t| && IsCat(t[i], cats);
      assert cs[i + 1] == t[i];
    }
  }

  /** `[b.get("category") for b in boxes if isinstance(b, dict)]`. */
  function Categories(boxes: seq<Value>): (cs: seq<Value>)
    ensures |cs| <= |boxes|
  {
    if boxes == [] then []
    else
      var rest := Categories(boxes[1..]);
      if boxes[0].Dict? then [GetOr(boxes[0].entries, "category", Null)] + rest else rest
  }

  /** `route_from_boxes(boxes)`. */
  function RouteFromBoxes(boxes: seq<Value>): (r: Result<Route>)
    ensures r.Ok? ==> (r.value.mode == "vision" <==> r.value.hasDiagram)
  {
    var cs := Categories(boxes);
    var diagram :- AnyIn(cs, PictureCats);
    var list :- AnyIn(cs, ListCats);
    Ok(MakeRoute(diagram, list))
  }

  /** The category of a dict box, `None` when it has none. */
  function CategoryOf(b: Value): Value
    requires b.Dict?
  {
    GetOr(b.entries, "category", Null)
  }

  /** The categories are those of the dict boxes, in order: every category
      read comes from a dict box, and every dict box gives one. */
  lemma {:induction false} CategoriesSpec(boxes: seq<Value>)
    ensures forall c | c in Categories(boxes) :: exists i | 0 <= i < |boxes| :: boxes[i].Dict? && c == CategoryOf(boxes[i])
    ensures forall i | 0 <= i < |boxes| && boxes[i].Dict? :: CategoryOf(boxes[i]) in Categories(boxes)
  {
    if boxes != [] {
      CategoriesSpec(boxes[1..]);
      var t := boxes[1..];
      forall c | c in Categories(boxes)
        ensures exists i | 0 <= i < |boxes| :: boxes[i].Dict? && c == CategoryOf(boxes[i])
      {
        if c in Categories(t) {
          var i :| 0 <= i < |t| && t[i].Dict? && c == CategoryOf(t[i]);
          assert boxes[i + 1] == t[i];
        }
      }
      forall i | 0 <= i < |boxes| && boxes[i].Dict? ensures CategoryOf(boxes[i]) in Categories(boxes) {
        if i > 0 {
          assert boxes[i] == t[i - 1];
        }
      }
    }
  }

  /** With hashable categories, routing from boxes reports a diagram exactly
      when some dict box is a picture and a list exactly when some dict box
      is list-like. */
  lemma RouteFromBoxesSpec(boxes: seq<Value>)
    requires forall i | 0 <= i < |boxes| && boxes[i].Dict? :: Hashable(CategoryOf(boxes[i]))
    ensures RouteFromBoxes(boxes).Ok?
    ensures RouteFromBoxes(boxes).value.hasDiagram
            <==> exists i | 0 <= i < |boxes| :: boxes[i].Dict? && IsCat(CategoryOf(boxes[i]), PictureCats)
    ensures RouteFromBoxes(boxes).value.hasList
            <==> exists i | 0 <= i < |boxes| :: boxes[i].Dict? && IsCat(CategoryOf(boxes[i]), ListCats)
  {
    var cs := Categories(boxes);
    CategoriesSpec(boxes);
    AnyInSpec(cs, PictureCats);
    AnyInSpec(cs, ListCats);
    forall i | 0 <= i < |cs| ensures Hashable(cs[i]) {
      assert cs[i] in cs;
    }
    if exists i | 0 <= i < |boxes| :: boxes[i].Dict? && IsCat(CategoryOf(boxes[i]), PictureCats) {
      var i :| 0 <= i < |boxes| && boxes[i].Dict? && IsCat(CategoryOf(boxes[i]), PictureCats);
      var k :| 0 <= k < |cs| && cs[k] == CategoryOf(boxes[i]);
    }
    if exists k | 0 <= k < |cs| :: IsCat(cs[k], PictureCats) {
      var k :| 0 <= k < |cs| && IsCat(cs[k], PictureCats);
      assert cs[k] in cs;
    }
    if exists i | 0 <= i < |boxes| :: boxes[i].Dict? && IsCat(CategoryOf(boxes[i]), ListCats) {
      var i :| 0 <= i < |boxes| && boxes[i].Dict? && IsCat(CategoryOf(boxes[i]), ListCats);
      var k :| 0 <= k < |cs| && cs[k] == CategoryOf(boxes[i]);
    }
    if exists k | 0 <= k < |cs| :: IsCat(cs[k], ListCats) {
      var k :| 0 <= k < |cs| && IsCat(cs[k], ListCats);
      assert cs[k] in cs;
    }
  }

  /** Boxes that are not dicts do not count: dropping one anywhere changes
      nothing. */
  lemma {:induction false} CategoriesSkipNonDict(boxes: seq<Value>, i: nat, x: Value)
    requires i <= |boxes| && !x.Dict?
    ensures Categories(boxes[..i] + [x] + boxes[i..]) == Categories(boxes)
    decreases i
  {
    var s := boxes[..i] + [x] + boxes[i..];
    if i == 0 {
      assert s[1..] == boxes;
    } else {
      assert s[0] == boxes[0];
      assert s[1..] == boxes[1..][..i - 1] + [x] + boxes[1..][i - 1..];
      CategoriesSkipNonDict(boxes[1..], i - 1, x);
      assert boxes == [boxes[0]] + boxes[1..];
    }
  }

  lemma RouteIgnoresNonDicts(boxes: seq<Value>, i: nat, x: Value)
    requires i <= |boxes| && !x.Dict?
    ensures RouteFromBoxes(boxes[..i] + [x] + boxes[i..]) == RouteFromBoxes(boxes)
  {
    CategoriesSkipNonDict(boxes, i, x);
  }

  // ------------------------------------------------------- problem documents

  /** `route_problem(doc)`: `doc.items` when the document has it, and per
      item its `category` attribute when it has one; a missing attribute
      reads as `None`. */
  function RouteProblem(items: Option<seq<Option<Value>>>): (r: Result<Route>)
    ensures r.Ok? ==> (r.value.mode == "vision" <==> r.value.hasDiagram)
  {
    var xs := if items.Some? then items.value else [];
    var cs := seq(|xs|, i requires 0 <= i < |xs| => if xs[i].Some? then xs[i].value else Null);
    var diagram :- AnyIn(cs, PictureCats);
    var list :- AnyIn(cs, ListCats);
    Ok(MakeRoute(diagram, list))
  }

  /** The category attribute of a dict box, as the document would carry it. */
  function AsItem(b: Value): Option<Value>
    requires b.Dict?
  {
    Lookup(b.entries, "category")
  }

  lemma {:induction false} CategoriesOfDicts(boxes: seq<Value>)
    requires forall i | 0 <= i < |boxes| :: boxes[i].Dict?
    ensures Categories(boxes) == seq(|boxes|, i requires 0 <= i < |boxes| => CategoryOf(boxes[i]))
  {
    if boxes != [] {
      CategoriesOfDicts(boxes[1..]);
    }
  }

  /** A document whose items carry the categories of a list of dict boxes
      routes exactly as the boxes do. */
  lemma RouteProblemAgrees(boxes: seq<Value>)
    requires forall i | 0 <= i < |boxes| :: boxes[i].Dict?
    ensures RouteProblem(Some(seq(|boxes|, i requires 0 <= i < |boxes| => AsItem(boxes[i]))))
            == RouteFromBoxes(boxes)
  {
    var xs := seq(|boxes|, i requires 0 <= i < |boxes| => AsItem(boxes[i]));
    var cs := seq(|xs|, i requires 0 <= i < |xs| => if xs[i].Some? then xs[i].value else Null);
    CategoriesOfDicts(boxes);
    assert cs == Categories(boxes);
  }

  /** A document without items is a text problem without lists. */
  lemma RouteProblemNoItems()
    ensures RouteProblem(None) == Ok(Route("text", false, false))
  {
  }

  // ------------------------------------------------------- problem folders

  /** Index of the last `c` in `s`. */
  function LastIndex(s: string, c: char): (r: Option<nat>)
    ensures r.Some? ==> r.value < |s| && s[r.value] == c && forall k | r.value < k < |s| :: s[k] != c
    ensures r.None? ==> forall k | 0 <= k < |s| :: s[k] != c
  {
    if s == [] then None
    else if s[|s| - 1] == c then Some(|s| - 1)
    else
      var r := LastIndex(s[..|s| - 1], c);
      assert forall k | 0 <= k < |s| - 1 :: s[..|s| - 1][k] == s[k];
      r
  }

  /** Some character of `s[lo..hi]` is not a dot. */
  predicate HasNonDot(s: string, lo: nat, hi: nat)
    requires lo <= hi <= |s|
  {
    exists k | lo <= k < hi :: s[k] != '.'
  }

  /** `os.path.splitext(p)[1]` on POSIX: from the last dot of the last path
      component, unless everything before that dot in the component is dots. */
  function Ext(p: string): (e: string)
    ensures e == [] || (e[0] == '.' && exists d | 0 <= d < |p| :: e == p[d..])
  {
    match LastIndex(p, '.')
    case None => ""
    case Some(d) =>
      var start := match LastIndex(p, '/') case None => 0 case Some(k) => k + 1;
      if start <= d && HasNonDot(p, start, d) then p[d..] else ""
  }

  /** A name with a visible stem gets the text after its last dot. */
  lemma ExtOf(stem: string, ext: string)
    requires HasNonDot(stem, 0, |stem|)
    requires forall k | 0 <= k < |stem| :: stem[k] != '/'
    requires forall k | 0 <= k < |ext| :: ext[k] != '.' && ext[k] != '/'
    ensures Ext(stem + "." + ext) == "." + ext
  {
    var p := stem + "." + ext;
    var d := |stem|;
    assert p[d] == '.';
    assert forall k | d < k < |p| :: p[k] == ext[k - d - 1];
    assert LastIndex(p, '.') == Some(d);
    assert forall k | 0 <= k < |p| :: p[k] != '/' by {
      forall k | 0 <= k < |p| ensures p[k] != '/' {
        if k < d {
          assert p[k] == stem[k];
        } else if k > d {
          assert p[k] == ext[k - d - 1];
        }
      }
    }
    var w :| 0 <= w < |stem| && stem[w] != '.';
    assert p[w] == stem[w];
    assert p[d..] == "." + ext;
  }

  /** A hidden file such as `.png` has no extension. */
  lemma ExtOfHidden(ext: string)
    requires forall k | 0 <= k < |ext| :: ext[k] != '.' && ext[k] != '/'
    ensures Ext("." + ext) == ""
  {
    var p := "." + ext;
    assert p[0] == '.';
    forall k | 0 < k < |p| ensures p[k] != '.' {
      assert p[k] == ext[k - 1];
    }
  }

  const ImageExts: set<string> := {".jpg", ".jpeg", ".png"}

  /** The file name, lower-cased, has an image extension. */
  predicate IsImage(name: string) {
    Lower(Ext(name)) in ImageExts
  }

  /** `s.endswith(suffix)`. */
  predicate EndsWith(s: string, suffix: string) {
    |suffix| <= |s| && s[|s| - |suffix|..] == suffix
  }

  /** The first name, lower-cased, ending in `.json`. */
  function FirstJson(names: seq<string>): (r: Option<nat>)
    ensures r.Some? ==> r.value < |names| && EndsWith(Lower(names[r.value]), ".json")
    ensures r.Some? ==> forall k | 0 <= k < r.value :: !EndsWith(Lower(names[k]), ".json")
    ensures r.None? ==> forall k | 0 <= k < |names| :: !EndsWith(Lower(names[k]), ".json")
  {
    if names == [] then None
    else if EndsWith(Lower(names[0]), ".json") then Some(0)
    else
      match FirstJson(names[1..])
      case None => None
      case Some(k) => Some(k + 1)
  }

  /** List detection from the first JSON file: every failure — a file that
      does not load, a document that is not a list, an unhashable
      category — is swallowed and reads as no list. */
  function ListFromJson(fs: Fs, path: string): bool {
    match Load(fs, path)
    case Err(_) => false
    case Ok(data) =>
      data.List? && (match AnyIn(Categories(data.items), ListCats) case Ok(b) => b case Err(_) => false)
  }

  /** `route_from_dir(problem_dir)` over the directory listing `names`. */
  function RouteFromDir(fs: Fs, dir: string, names: seq<string>): (r: Route)
    ensures r.hasDiagram <==> exists k | 0 <= k < |names| :: IsImage(names[k])
    ensures r.mode == "vision" <==> r.hasDiagram
    ensures FirstJson(names).None? ==> !r.hasList
  {
    var diagram := exists k | 0 <= k < |names| :: IsImage(names[k]);
    var list := match FirstJson(names)
      case None => false
      case Some(k) => ListFromJson(fs, Join(dir, names[k]));
    MakeRoute(diagram, list)
  }

  /** When the first JSON file of the folder is a list of boxes that routes
      without error, the folder reports a list exactly when the boxes do. */
  lemma RouteFromDirAgrees(fs: Fs, dir: string, names: seq<string>, k: nat, boxes: seq<Value>)
    requires FirstJson(names) == Some(k)
    requires Join(dir, names[k]) in fs && fs[Join(dir, names[k])] == Doc(List(boxes))
    requires RouteFromBoxes(boxes).Ok?
    ensures RouteFromDir(fs, dir, names).hasList == RouteFromBoxes(boxes).value.hasList
  {
  }
}
