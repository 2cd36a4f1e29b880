/**
 * The two-pass OCR of pictures (apps/a_ocr/tools/picture_ocr_pipeline.py):
 * every Picture block of a page layout is cropped out of the original
 * image, the crop is read again, and its text and formula blocks are
 * attached to the Picture block as `picture-children`; the layout file is
 * rewritten only when some block gained children.
 *
 * The OCR engine, the image library and the temporary folders are outside
 * the model: the image size, whether a crop can be saved, and the layout
 * the second pass produces for a crop are parameters.
 */
module PictureOcr {
  import opened Outcomes
  import opened Numerics
  import opened PyText
  import opened PyValue

  // ------------------------------------------------------------ children

  /** `b.get("category") in ("Text", "Formula")`: a tuple test by equality,
      so no value raises. */
  predicate TextLike(cat: Value) {
    cat == Str("Text") || cat == Str("Formula")
  }

  /** `{"category": "PictureText", "text": t}`. */
  function ChildValue(t: string): Value {
    Dict([("category", Str("PictureText")), ("text", Str(t))])
  }

  /** The text of a dict block, `""` when it has none. */
  function TextOf(b: Value): Value
    requires b.Dict?
  {
    GetOr(b.entries, "text", Str(""))
  }

  /** A text or formula block whose text is not a string: `strip` raises. */
  predicate Faulty(b: Value) {
    b.Dict? && TextLike(GetOr(b.entries, "category", Null)) && !TextOf(b).Str?
  }

  /** A block that yields a child: a text or formula dict with visible text. */
  predicate Contributes(b: Value) {
    b.Dict? && TextLike(GetOr(b.entries, "category", Null)) && TextOf(b).Str? && Strip(TextOf(b).s) != []
  }

  /** The loop body: what one block adds to `children`. */
  function ChildOf(b: Value): (r: Result<seq<Value>>)
    ensures r.Err? <==> Faulty(b)
    ensures r.Ok? ==> |r.value| <= 1
  {
    if !b.Dict? || !TextLike(GetOr(b.entries, "category", Null)) then Ok([])
    else
      match TextOf(b)
      case Str(s) => var t := Strip(s); if t != [] then Ok([ChildValue(t)]) else Ok([])
      case _ => Err(AttributeError)
  }

  /** The children of the first `n` blocks. */
  function ChildrenPrefix(blocks: seq<Value>, n: nat): Result<seq<Value>>
    requires n <= |blocks|
  {
    if n == 0 then Ok([])
    else
      match ChildrenPrefix(blocks, n - 1)
      case Err(e) => Err(e)
      case Ok(cs) =>
        match ChildOf(blocks[n - 1])
        case Err(e) => Err(e)
        case Ok(c) => Ok(cs + c)
  }

  /** `_blocks_to_children(blocks)`. */
  function Children(blocks: Value): Result<seq<Value>> {
    if !blocks.List? then Ok([]) else ChildrenPrefix(blocks.items, |blocks.items|)
  }

  method BlocksToChildren(blocks: Value) returns (r: Result<seq<Value>>)
    ensures r == Children(blocks)
  {
    if !blocks.List? {
      return Ok([]);
    }
    var bs := blocks.items;
    var children: seq<Value> := [];
    for i := 0 to |bs|
      invariant ChildrenPrefix(bs, i) == Ok(children)
    {
      var b := bs[i];
      if !b.Dict? {
        assert children + [] == children;
        continue;
      }
      if TextLike(GetOr(b.entries, "category", Null)) {
        var text := TextOf(b);
        if !text.Str? {
          ChildrenErrSticks(bs, i + 1, |bs|);
          return Err(AttributeError);
        }
        var t := Strip(text.s);
        if t != [] {
          children := children + [ChildValue(t)];
        } else {
          assert children + [] == children;
        }
      } else {
        assert children + [] == children;
      }
    }
    return Ok(children);
  }

  lemma {:induction false} ChildrenErrSticks(blocks: seq<Value>, n: nat, m: nat)
    requires n <= m <= |blocks| && ChildrenPrefix(blocks, n).Err?
    ensures ChildrenPrefix(blocks, m) == ChildrenPrefix(blocks, n)
    decreases m
  {
    if m > n {
      ChildrenErrSticks(blocks, n, m - 1);
    }
  }

  /** The positions, below `n`, of the blocks that satisfy `p`. */
  function Positions(p: Value -> bool, blocks: seq<Value>, n: nat): (idx: seq<nat>)
    requires n <= |blocks|
    ensures forall k | 0 <= k < |idx| :: idx[k] < n
  {
    if n == 0 then []
    else
      var rest := Positions(p, blocks, n - 1);
      if p(blocks[n - 1]) then rest + [n - 1] else rest
  }

  /** The positions are increasing and are exactly those of the blocks
      that satisfy `p`. */
  lemma {:induction false} PositionsSpec(p: Value -> bool, blocks: seq<Value>, n: nat)
    requires n <= |blocks|
    ensures var idx := Positions(p, blocks, n);
            && (forall k | 0 <= k < |idx| :: p(blocks[idx[k]]))
            && (forall k, l | 0 <= k < l < |idx| :: idx[k] < idx[l])
            && (forall i | 0 <= i < n && p(blocks[i]) :: i in idx)
  {
    if n > 0 {
      PositionsSpec(p, blocks, n - 1);
      var rest := Positions(p, blocks, n - 1);
      if p(blocks[n - 1]) {
        var idx := rest + [n - 1];
        assert Positions(p, blocks, n) == idx;
        assert forall k | 0 <= k < |rest| :: idx[k] == rest[k];
      } else {
        assert Positions(p, blocks, n) == rest;
      }
    }
  }

  /** The text a contributing block gives its child. */
  function ChildText(b: Value): string {
    if b.Dict? && TextOf(b).Str? then Strip(TextOf(b).s) else []
  }

  /** One block yields its stripped text exactly when it contributes. */
  lemma ChildOfSpec(b: Value)
    ensures ChildOf(b).Ok? ==>
              ChildOf(b).value == if Contributes(b) then [ChildValue(ChildText(b))] else []
  {
  }

  /** The conversion fails, with an AttributeError, exactly when some text
      or formula block has text that is not a string. */
  lemma {:induction false} ChildrenErrSpec(blocks: seq<Value>, n: nat)
    requires n <= |blocks|
    ensures ChildrenPrefix(blocks, n).Err? <==> exists i | 0 <= i < n :: Faulty(blocks[i])
    ensures ChildrenPrefix(blocks, n).Err? ==> ChildrenPrefix(blocks, n).error == AttributeError
  {
    if n > 0 {
      ChildrenErrSpec(blocks, n - 1);
      if ChildrenPrefix(blocks, n - 1).Err? {
        var i :| 0 <= i < n - 1 && Faulty(blocks[i]);
        assert 0 <= i < n && Faulty(blocks[i]);
      } else if !Faulty(blocks[n - 1]) {
        assert forall i | 0 <= i < n :: !Faulty(blocks[i]) by {
          assert forall i | 0 <= i < n - 1 :: !Faulty(blocks[i]);
        }
      }
    }
  }

  /** The children of the blocks at positions `idx`, in that order. */
  function ChildrenAt(blocks: seq<Value>, idx: seq<nat>): (cs: seq<Value>)
    requires forall k | 0 <= k < |idx| :: idx[k] < |blocks|
    ensures |cs| == |idx|
    ensures forall k | 0 <= k < |idx| :: cs[k] == ChildValue(ChildText(blocks[idx[k]]))
  {
    if idx == [] then []
    else ChildrenAt(blocks, idx[..|idx| - 1]) + [ChildValue(ChildText(blocks[idx[|idx| - 1]]))]
  }

  /** When the conversion succeeds there is one child per contributing
      block, in block order, holding that block's stripped text. */
  lemma {:induction false} ChildrenSpec(blocks: seq<Value>, n: nat)
    requires n <= |blocks|
    ensures ChildrenPrefix(blocks, n).Ok? ==>
              ChildrenPrefix(blocks, n).value == ChildrenAt(blocks, Positions(Contributes, blocks, n))
  {
    if n > 0 && ChildrenPrefix(blocks, n).Ok? {
      ChildrenSpec(blocks, n - 1);
      var cs := ChildrenPrefix(blocks, n - 1).value;
      var idx := Positions(Contributes, blocks, n - 1);
      var b := blocks[n - 1];
      ChildOfSpec(b);
      var c := ChildOf(b).value;
      assert ChildrenPrefix(blocks, n).value == cs + c;
      if Contributes(b) {
        var idx' := idx + [n - 1];
        assert Positions(Contributes, blocks, n) == idx';
        assert idx'[..|idx'| - 1] == idx;
      } else {
        assert Positions(Contributes, blocks, n) == idx;
        assert cs + c == cs;
      }
    }
  }

  /** A block that is not a dict yields nothing. */
  lemma NonDictBlock(b: Value)
    requires !b.Dict?
    ensures ChildOf(b) == Ok([])
  {
  }

  // --------------------------------------------------------------- crops

  /** `int(v)` for a bounding-box coordinate. */
  function IntOf(v: Value): (r: Result<int>)
    ensures v.Num? ==> r == Ok(Trunc(v.n))
  {
    match v
    case Num(x) => Ok(Trunc(x))
    case Bool(b) => Ok(if b then 1 else 0)
    case Str(s) =>
      (match ParseInt(s)
       case Some(i) => Ok(i)
       case None => Err(ValueError("invalid literal for int()")))
    case _ => Err(TypeError)
  }

  function IntMin(a: int, b: int): int { if a <= b then a else b }
  function IntMax(a: int, b: int): int { if a >= b then a else b }

  /** Clamping a box into a `width` × `height` image. */
  function ClampBox(x1: int, y1: int, x2: int, y2: int, width: nat, height: nat): (b: (int, int, int, int))
    ensures 0 <= b.0 <= b.2 <= width && 0 <= b.1 <= b.3 <= height
  {
    var cx1 := IntMax(0, IntMin(x1, width));
    var cy1 := IntMax(0, IntMin(y1, height));
    var cx2 := IntMax(cx1, IntMin(x2, width));
    var cy2 := IntMax(cy1, IntMin(y2, height));
    (cx1, cy1, cx2, cy2)
  }

  /** A box inside the image is left as it is, and clamping twice is
      clamping once. */
  lemma ClampBoxKeeps(x1: int, y1: int, x2: int, y2: int, width: nat, height: nat)
    ensures 0 <= x1 <= x2 <= width && 0 <= y1 <= y2 <= height ==>
              ClampBox(x1, y1, x2, y2, width, height) == (x1, y1, x2, y2)
    ensures var b := ClampBox(x1, y1, x2, y2, width, height);
            ClampBox(b.0, b.1, b.2, b.3, width, height) == b
  {
  }

  /** `_crop_save(original_img, bbox, save_path)` for a four-element box:
      whether the crop was written. `saved` is whether writing the crop
      succeeds. */
  function CropSave(bbox: seq<Value>, width: nat, height: nat, saved: bool): (r: Result<bool>)
    requires |bbox| == 4
  {
    var x1 :- IntOf(bbox[0]);
    var y1 :- IntOf(bbox[1]);
    var x2 :- IntOf(bbox[2]);
    var y2 :- IntOf(bbox[3]);
    var b := ClampBox(x1, y1, x2, y2, width, height);
    if b.2 <= b.0 || b.3 <= b.1 then Ok(false)
    else Ok(saved)
  }

  /** A crop is written exactly when the coordinates convert, the clamped
      box has area and saving succeeds; a box that clamps to nothing writes
      no crop. */
  lemma CropSaveSpec(bbox: seq<Value>, width: nat, height: nat, saved: bool)
    requires |bbox| == 4
    ensures CropSave(bbox, width, height, saved).Err?
            <==> exists k | 0 <= k < 4 :: IntOf(bbox[k]).Err?
    ensures CropSave(bbox, width, height, saved) == Ok(true)
            <==> && (forall k | 0 <= k < 4 :: IntOf(bbox[k]).Ok?)
                 && saved
                 && var b := ClampBox(IntOf(bbox[0]).value, IntOf(bbox[1]).value,
                                      IntOf(bbox[2]).value, IntOf(bbox[3]).value, width, height);
                    0 <= b.0 < b.2 <= width && 0 <= b.1 < b.3 <= height
  {
    if forall k | 0 <= k < 4 :: IntOf(bbox[k]).Ok? {
    } else {
      var k :| 0 <= k < 4 && IntOf(bbox[k]).Err?;
      assert k == 0 || k == 1 || k == 2 || k == 3;
    }
  }

  // ---------------------------------------------------------------- pages

  /** What the pipeline cannot see: the page folder and stem, the size of
      the original image, whether a crop can be written to a path, and the
      layout the second OCR pass produces for a crop (None when there is
      none). */
  datatype Env = Env(
    dir: string, stem: string, width: nat, height: nat,
    saves: string -> bool, second: string -> Option<Value>)

  /** `page_dir / f"{page_stem}__pic_i{n}.jpg"`. */
  function CropPath(env: Env, n: nat): string {
    Join(env.dir, env.stem + "__pic_i" + NatToString(n) + ".jpg")
  }

  /** The children of a crop: none when the second pass left no layout or
      reading it failed. */
  function CropChildren(env: Env, path: string): seq<Value> {
    match env.second(path)
    case None => []
    case Some(layout) =>
      match Children(layout)
      case Ok(cs) => cs
      case Err(_) => []
  }

  /** The page after the loop has visited some blocks: the blocks, the crop
      counter, the `changed` flag and the crops written, in order. */
  datatype PageState = PageState(blocks: seq<Value>, counter: nat, changed: bool, crops: seq<string>)

  /** A Picture block with a four-element box: the blocks the loop crops. */
  predicate Croppable(b: Value) {
    b.Dict? && GetOr(b.entries, "category", Null) == Str("Picture")
    && var bbox := GetOr(b.entries, "bbox", Null); bbox.List? && |bbox.items| == 4
  }

  /** The loop body for block `i`. */
  function BlockStep(env: Env, st: PageState, i: nat): (r: Result<PageState>)
    requires i < |st.blocks|
  {
    var blk := st.blocks[i];
    if !blk.Dict? then Err(AttributeError)
    else if !Croppable(blk) then Ok(st)
    else
      var path := CropPath(env, st.counter);
      var ok :- CropSave(GetOr(blk.entries, "bbox", Null).items, env.width, env.height, env.saves(path));
      if !ok then Ok(st)
      else
        var children := CropChildren(env, path);
        var blocks := if children != [] then st.blocks[i := Dict(Put(blk.entries, "picture-children", List(children)))]
                      else st.blocks;
        Ok(PageState(blocks, st.counter + 1, st.changed || children != [], st.crops + [path]))
  }

  /** The state after the first `n` blocks. */
  function PageAt(env: Env, blocks: seq<Value>, n: nat): (r: Result<PageState>)
    requires n <= |blocks|
    ensures r.Ok? ==> |r.value.blocks| == |blocks|
    ensures r.Ok? ==> forall j | n <= j < |blocks| :: r.value.blocks[j] == blocks[j]
  {
    if n == 0 then Ok(PageState(blocks, 0, false, []))
    else
      match PageAt(env, blocks, n - 1)
      case Err(e) => Err(e)
      case Ok(st) => BlockStep(env, st, n - 1)
  }

  /** The `for idx, blk in enumerate(blocks)` loop of `run_pipeline`. */
  method ProcessBlocks(env: Env, blocks: seq<Value>) returns (r: Result<PageState>)
    ensures r == PageAt(env, blocks, |blocks|)
  {
    var bs := blocks;
    var changed := false;
    var counter := 0;
    var crops: seq<string> := [];
    for i := 0 to |blocks|
      invariant PageAt(env, blocks, i) == Ok(PageState(bs, counter, changed, crops))
    {
      var blk := bs[i];
      if !blk.Dict? {
        PageErrSticks(env, blocks, i + 1, |blocks|);
        return Err(AttributeError);
      }
      if !Croppable(blk) {
        continue;
      }
      var path := CropPath(env, counter);
      var ok := CropSave(GetOr(blk.entries, "bbox", Null).items, env.width, env.height, env.saves(path));
      if ok.Err? {
        PageErrSticks(env, blocks, i + 1, |blocks|);
        return Err(ok.error);
      }
      if !ok.value {
        continue;
      }
      var children := CropChildren(env, path);
      if children != [] {
        bs := bs[i := Dict(Put(blk.entries, "picture-children", List(children)))];
        changed := true;
      }
      counter := counter + 1;
      crops := crops + [path];
    }
    return Ok(PageState(bs, counter, changed, crops));
  }

  lemma {:induction false} PageErrSticks(env: Env, blocks: seq<Value>, n: nat, m: nat)
    requires n <= m <= |blocks| && PageAt(env, blocks, n).Err?
    ensures PageAt(env, blocks, m) == PageAt(env, blocks, n)
    decreases m
  {
    if m > n {
      PageErrSticks(env, blocks, n, m - 1);
    }
  }

  /** The crops written so far are numbered 0, 1, 2, ... without gaps, the
      counter is their number, and the flag is raised exactly when some
      block gained children — until then the blocks are those read. */
  lemma {:induction false} PageAtSpec(env: Env, blocks: seq<Value>, n: nat)
    requires n <= |blocks|
    ensures PageAt(env, blocks, n).Ok? ==>
              var st := PageAt(env, blocks, n).value;
              && |st.crops| == st.counter
              && (forall k | 0 <= k < st.counter :: st.crops[k] == CropPath(env, k))
              && (!st.changed ==> st.blocks == blocks)
              && (forall j | 0 <= j < |blocks| && !Croppable(blocks[j]) :: st.blocks[j] == blocks[j])
  {
    if n > 0 && PageAt(env, blocks, n).Ok? {
      PageAtSpec(env, blocks, n - 1);
      var st := PageAt(env, blocks, n - 1).value;
      BlockStepShape(env, st, n - 1);
      var st' := BlockStep(env, st, n - 1).value;
      assert PageAt(env, blocks, n).value == st';
      if st' != st {
        var path := CropPath(env, st.counter);
        forall k | 0 <= k < st'.counter ensures st'.crops[k] == CropPath(env, k) {
          if k < st.counter {
            assert st'.crops[k] == st.crops[k];
          }
        }
      }
    }
  }

  /** One step either leaves the state as it is, or writes the next crop of
      a croppable block, touching no other block. */
  lemma BlockStepShape(env: Env, st: PageState, i: nat)
    requires i < |st.blocks| && BlockStep(env, st, i).Ok?
    ensures var st' := BlockStep(env, st, i).value;
            && |st'.blocks| == |st.blocks|
            && (forall j | 0 <= j < |st.blocks| && j != i :: st'.blocks[j] == st.blocks[j])
            && (st' == st || (Croppable(st.blocks[i])
                              && st'.counter == st.counter + 1
                              && st'.crops == st.crops + [CropPath(env, st.counter)]))
            && (st.changed ==> st'.changed)
            && (!st'.changed ==> st'.blocks == st.blocks)
  {
  }

  /** A block that gains children ends with them under `picture-children`,
      and the flag is raised. */
  lemma BlockStepAttaches(env: Env, st: PageState, i: nat)
    requires i < |st.blocks| && BlockStep(env, st, i).Ok?
    requires BlockStep(env, st, i).value.blocks != st.blocks
    ensures var st' := BlockStep(env, st, i).value;
            && st'.changed
            && st'.blocks == st.blocks[i := st'.blocks[i]]
            && st'.blocks[i].Dict?
            && Lookup(st'.blocks[i].entries, "picture-children")
               == Some(List(CropChildren(env, CropPath(env, st.counter))))
            && CropChildren(env, CropPath(env, st.counter)) != []
  {
    var blk := st.blocks[i];
    var children := CropChildren(env, CropPath(env, st.counter));
    LookupPut(blk.entries, "picture-children", List(children), "picture-children");
  }

  /** One layout file of `run_pipeline`: skipped when it does not exist or
      does not hold a list, otherwise processed and written back only when
      some block gained children. Reading a file that does not parse, and
      any error of the loop, end the run. */
  function RunPage(fs: Fs, layoutPath: string, env: Env): (r: Result<Fs>)
  {
    if layoutPath == [] || layoutPath !in fs then Ok(fs)
    else
      var blocks :- Load(fs, layoutPath);
      if !blocks.List? then Ok(fs)
      else
        var st :- PageAt(env, blocks.items, |blocks.items|);
        if st.changed then
          var (fs', _) := Dump(fs, layoutPath, List(st.blocks));
          Ok(fs')
        else Ok(fs)
  }

  /** The layout file is rewritten only when some block gained children,
      and no other file is touched. */
  lemma RunPageWrites(fs: Fs, layoutPath: string, env: Env)
    requires RunPage(fs, layoutPath, env).Ok?
    ensures var fs' := RunPage(fs, layoutPath, env).value;
            && fs'.Keys == fs.Keys
            && (forall p | p in fs && p != layoutPath :: fs'[p] == fs[p])
            && (fs' != fs ==>
                  layoutPath in fs && fs[layoutPath].Doc? && fs[layoutPath].value.List?
                  && PageAt(env, fs[layoutPath].value.items, |fs[layoutPath].value.items|).value.changed)
  {
  }

  /** The outer loop of `run_pipeline` over the pages of the first pass:
      each page names its layout file (empty when it has none) and the
      parameters of its second pass. */
  function RunPages(fs: Fs, pages: seq<(string, Env)>): Result<Fs> {
    if pages == [] then Ok(fs)
    else
      var fs' :- RunPages(fs, pages[..|pages| - 1]);
      var (path, env) := pages[|pages| - 1];
      RunPage(fs', path, env)
  }

  method RunPipeline(fs: Fs, pages: seq<(string, Env)>) returns (r: Result<Fs>)
    ensures r == RunPages(fs, pages)
  {
    var cur := fs;
    for i := 0 to |pages|
      invariant RunPages(fs, pages[..i]) == Ok(cur)
    {
      assert pages[..i + 1][..i] == pages[..i];
      var (path, env) := pages[i];
      var next := RunPage(cur, path, env);
      if next.Err? {
        RunPagesErrSticks(fs, pages, i + 1);
        return Err(next.error);
      }
      cur := next.value;
    }
    assert pages[..|pages|] == pages;
    return Ok(cur);
  }

  lemma {:induction false} RunPagesErrSticks(fs: Fs, pages: seq<(string, Env)>, n: nat)
    requires n <= |pages| && RunPages(fs, pages[..n]).Err?
    ensures RunPages(fs, pages) == RunPages(fs, pages[..n])
    decreases |pages|
  {
    if n < |pages| {
      var init := pages[..|pages| - 1];
      assert init[..n] == pages[..n];
      RunPagesErrSticks(fs, init, n);
    } else {
      assert pages[..n] == pages;
    }
  }

  /** The run creates and deletes no file, and rewrites only layout files
      of the pages. */
  lemma {:induction false} RunPagesFrame(fs: Fs, pages: seq<(string, Env)>)
    requires RunPages(fs, pages).Ok?
    ensures var fs' := RunPages(fs, pages).value;
            && fs'.Keys == fs.Keys
            && forall p | p in fs && (forall k | 0 <= k < |pages| :: pages[k].0 != p) :: fs'[p] == fs[p]
    decreases |pages|
  {
    if pages != [] {
      var init := pages[..|pages| - 1];
      RunPagesFrame(fs, init);
      var mid := RunPages(fs, init).value;
      var (path, env) := pages[|pages| - 1];
      RunPageWrites(mid, path, env);
      forall p | p in fs && (forall k | 0 <= k < |pages| :: pages[k].0 != p)
        ensures forall k | 0 <= k < |init| :: init[k].0 != p
      {
        forall k | 0 <= k < |init| ensures init[k].0 != p {
          assert init[k] == pages[k];
        }
      }
    }
  }
}
