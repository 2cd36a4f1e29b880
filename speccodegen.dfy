/**
 * The spec drafting stage (`spec_codegen.py`): the default draft, the
 * normalisation `_ensure_spec_shape` applies to whatever draft it is given,
 * and the file rules of `generate_spec`, `ensure_spec` and
 * `generate_specs_for_all_images`: an existing spec file wins unless the
 * caller asks to overwrite it.
 *
 * The language model is a parameter: `llm` is what `_generate_spec_via_llm`
 * returned (a spec dict and a metadata dict, or nothing), and `gen(i, item)`
 * is what `_generate_spec_for_single_image` returned for image `i`.  The
 * clock is a parameter too: `now` is what `datetime.utcnow().isoformat()`
 * returns.
 */
module SpecCodegen {
  import opened Outcomes
  import opened Numerics
  import opened PyText
  import opened PyValue

  // ---------------------------------------------------------- constants

  /** `DEFAULT_BOX["min"]` and `DEFAULT_BOX["max"]`. */
  function DefaultMin(): Value { List([Num(-6.0), Num(-3.0)]) }
  function DefaultMax(): Value { List([Num(6.0), Num(3.0)]) }

  /** A box dict as `_ensure_spec_shape` builds it: exactly min, max, margin. */
  function BoxOf(mn: Value, mx: Value, margin: real): Value {
    Dict([("min", mn), ("max", mx), ("margin", Num(margin))])
  }

  /** `DEFAULT_BOX`. */
  function DefaultBox(): Value { BoxOf(DefaultMin(), DefaultMax(), 0.2) }

  /** `DEFAULT_NOTES`. */
  function DefaultNotes(): Value {
    List([Str("Fill in the geometric constraints before running geo_compute."),
          Str("Set 'type' to a supported template (e.g. quad_diag2len2ang).")])
  }

  /** `_default_spec_template()`. */
  function DefaultTemplate(): Value {
    Dict([("type", Str("__TBD__")),
          ("seed", Dict([])),
          ("angles", Dict([])),
          ("lengths", Dict([])),
          ("box", DefaultBox()),
          ("points", Dict([])),
          ("scale", Num(1.0)),
          ("extras", List([])),
          ("point_labels", Dict([])),
          ("status", Str("draft")),
          ("meta", Dict([("notes", DefaultNotes())]))])
  }

  // ---------------------------------------------------------- _ensure_spec_shape

  /** The box in the shape the later stages read: three entries, in this
      order, two coordinate lists and a float margin. */
  predicate IsBox(v: Value) {
    && v.Dict? && |v.entries| == 3
    && v.entries[0].1.List? && v.entries[1].1.List? && v.entries[2].1.Num?
    && v == BoxOf(v.entries[0].1, v.entries[1].1, v.entries[2].1.n)
  }

  /** The box `_ensure_spec_shape` stores, given what `spec.get("box")` found. */
  function ShapeBox(h: Host, box: Option<Value>): (r: Result<Value>)
    ensures box.None? || !box.value.Dict? ==> r == Ok(DefaultBox())
    ensures r.Ok? ==> IsBox(r.value)
    ensures box.Some? && IsBox(box.value) ==> r == Ok(box.value)
  {
    if box.None? || !box.value.Dict? then Ok(DefaultBox())
    else
      var b := box.value.entries;
      BoxLookups(box.value);
      var mn :- ToList(GetOr(b, "min", DefaultMin()));
      var mx :- ToList(GetOr(b, "max", DefaultMax()));
      var margin :- ToFloat(h, GetOr(b, "margin", Num(0.2)));
      Ok(BoxOf(mn, mx, margin))
  }

  /** A dict box is rebuilt field by field, each field defaulting on its own:
      min and max through `list(...)`, margin through `float(...)`; the
      first conversion that fails is the error. */
  lemma ShapeBoxFields(h: Host, b: Entries)
    ensures var mn := ToList(GetOr(b, "min", DefaultMin()));
            var mx := ToList(GetOr(b, "max", DefaultMax()));
            var margin := ToFloat(h, GetOr(b, "margin", Num(0.2)));
            && (mn.Err? ==> ShapeBox(h, Some(Dict(b))) == Err(mn.error))
            && (mn.Ok? && mx.Err? ==> ShapeBox(h, Some(Dict(b))) == Err(mx.error))
            && (mn.Ok? && mx.Ok? && margin.Err? ==> ShapeBox(h, Some(Dict(b))) == Err(margin.error))
            && (mn.Ok? && mx.Ok? && margin.Ok? ==> ShapeBox(h, Some(Dict(b))) == Ok(BoxOf(mn.value, mx.value, margin.value)))
  {
  }

  /** The three fields of a box in shape read as its three entries. */
  lemma BoxLookups(v: Value)
    ensures IsBox(v) ==> && Lookup(v.entries, "min") == Some(v.entries[0].1)
                         && Lookup(v.entries, "max") == Some(v.entries[1].1)
                         && Lookup(v.entries, "margin") == Some(v.entries[2].1)
  {
    if IsBox(v) {
      var b := v.entries;
      LookupAt(b, 0, "min");
      LookupAt(b, 1, "max");
      LookupAt(b, 2, "margin");
    }
  }

  /** A `notes` entry `_ensure_spec_shape` keeps: a non-empty list. */
  predicate NotesOk(notes: Option<Value>) {
    notes.Some? && notes.value.List? && notes.value.items != []
  }

  /** The meta dict `_ensure_spec_shape` stores, given what `spec.get("meta")` found. */
  function ShapeMeta(meta: Option<Value>): (r: Entries)
    ensures NotesOk(Lookup(r, "notes"))
    ensures meta.None? || !meta.value.Dict? ==> r == [("notes", DefaultNotes())]
    ensures meta.Some? && meta.value.Dict? ==>
              && (NotesOk(Lookup(meta.value.entries, "notes")) ==> r == meta.value.entries)
              && (!NotesOk(Lookup(meta.value.entries, "notes")) ==> Lookup(r, "notes") == Some(DefaultNotes()))
              && forall k :: k != "notes" ==> Lookup(r, k) == Lookup(meta.value.entries, k)
  {
    var d := if meta.Some? && meta.value.Dict? then meta.value.entries else [];
    if NotesOk(Lookup(d, "notes")) then d
    else
      LookupPut(d, "notes", DefaultNotes(), "notes");
      assert forall k :: Lookup(Put(d, "notes", DefaultNotes()), k)
                      == if k == "notes" then Some(DefaultNotes()) else Lookup(d, k) by {
        forall k ensures Lookup(Put(d, "notes", DefaultNotes()), k)
                      == if k == "notes" then Some(DefaultNotes()) else Lookup(d, k) {
          LookupPut(d, "notes", DefaultNotes(), k);
        }
      }
      Put(d, "notes", DefaultNotes())
  }

  /** `extras if isinstance(extras, list) else []`. */
  function ListOr(v: Option<Value>): Value {
    if v.Some? && v.value.List? then v.value else List([])
  }

  /** `labels if isinstance(labels, dict) else {}`. */
  function DictOr(v: Option<Value>): Value {
    if v.Some? && v.value.Dict? then v.value else Dict([])
  }

  /** `spec.get("status") or "draft"`. */
  function StatusOr(v: Option<Value>): Value {
    if v.Some? && Truthy(v.value) then v.value else Str("draft")
  }

  /** The dict the function works on: the spec itself, or `{}` for anything else. */
  function Base(spec: Value): Entries {
    if spec.Dict? then spec.entries else []
  }

  /** The first four `setdefault` calls. */
  function Filled(e: Entries): Entries {
    var e1 := SetDefault(e, "type", Str("__TBD__")).0;
    var e2 := SetDefault(e1, "seed", Dict([])).0;
    var e3 := SetDefault(e2, "angles", Dict([])).0;
    SetDefault(e3, "lengths", Dict([])).0
  }

  /** Everything after the box: two more defaults and four forced fields. */
  function Finish(e: Entries): Entries {
    var e1 := SetDefault(e, "points", Dict([])).0;
    var e2 := SetDefault(e1, "scale", Num(1.0)).0;
    var e3 := Put(e2, "extras", ListOr(Lookup(e2, "extras")));
    var e4 := Put(e3, "point_labels", DictOr(Lookup(e3, "point_labels")));
    var e5 := Put(e4, "status", StatusOr(Lookup(e4, "status")));
    Put(e5, "meta", Dict(ShapeMeta(Lookup(e5, "meta"))))
  }

  /** `_ensure_spec_shape(spec)`: only converting the box can raise. */
  function Shaped(h: Host, spec: Value): Result<Entries> {
    var e := Filled(Base(spec));
    var box :- ShapeBox(h, Lookup(e, "box"));
    Ok(Finish(Put(e, "box", box)))
  }

  /** `_ensure_spec_shape(spec)`, one assignment at a time on the dict it returns. */
  method EnsureSpecShape(h: Host, spec: Value) returns (r: Result<Entries>)
    ensures r == Shaped(h, spec)
  {
    var e: Entries := if spec.Dict? then spec.entries else [];
    e := SetDefault(e, "type", Str("__TBD__")).0;
    e := SetDefault(e, "seed", Dict([])).0;
    e := SetDefault(e, "angles", Dict([])).0;
    e := SetDefault(e, "lengths", Dict([])).0;
    var box := ShapeBox(h, Lookup(e, "box"));
    if box.Err? {
      return Err(box.error);
    }
    e := Put(e, "box", box.value);
    e := SetDefault(e, "points", Dict([])).0;
    e := SetDefault(e, "scale", Num(1.0)).0;
    e := Put(e, "extras", ListOr(Lookup(e, "extras")));
    e := Put(e, "point_labels", DictOr(Lookup(e, "point_labels")));
    e := Put(e, "status", StatusOr(Lookup(e, "status")));
    var meta := ShapeMeta(Lookup(e, "meta"));
    e := Put(e, "meta", Dict(meta));
    r := Ok(e);
  }

  /** What every shaped spec satisfies: the six fields it never overwrites are
      present, the box is in shape, extras is a list, point_labels a dict,
      status truthy and meta a dict with non-empty notes. */
  predicate WellShaped(e: Entries) {
    HasDefaults(e) && InShape(e)
  }

  /** The six fields shaping fills in only when they are missing are present. */
  predicate HasDefaults(e: Entries) {
    && Lookup(e, "type").Some? && Lookup(e, "seed").Some?
    && Lookup(e, "angles").Some? && Lookup(e, "lengths").Some?
    && Lookup(e, "points").Some? && Lookup(e, "scale").Some?
  }

  /** The five fields shaping forces are in shape. */
  predicate InShape(e: Entries) {
    && Lookup(e, "box").Some? && IsBox(Lookup(e, "box").value)
    && Lookup(e, "extras").Some? && Lookup(e, "extras").value.List?
    && Lookup(e, "point_labels").Some? && Lookup(e, "point_labels").value.Dict?
    && Lookup(e, "status").Some? && Truthy(Lookup(e, "status").value)
    && Lookup(e, "meta").Some? && Lookup(e, "meta").value.Dict?
    && NotesOk(Lookup(Lookup(e, "meta").value.entries, "notes"))
  }

  /** Reading a key after the four defaults. */
  lemma FilledLookup(e: Entries, k: string)
    ensures k == "type" && Lookup(e, k).None? ==> Lookup(Filled(e), k) == Some(Str("__TBD__"))
    ensures (k == "seed" || k == "angles" || k == "lengths") && Lookup(e, k).None? ==> Lookup(Filled(e), k) == Some(Dict([]))
    ensures Lookup(e, k).Some? ==> Lookup(Filled(e), k) == Lookup(e, k)
    ensures k != "type" && k != "seed" && k != "angles" && k != "lengths" ==> Lookup(Filled(e), k) == Lookup(e, k)
  {
    var e1 := SetDefault(e, "type", Str("__TBD__")).0;
    var e2 := SetDefault(e1, "seed", Dict([])).0;
    var e3 := SetDefault(e2, "angles", Dict([])).0;
    LookupSpec(e, "type");
    LookupSpec(e1, "seed");
    LookupSpec(e2, "angles");
    LookupSpec(e3, "lengths");
    LookupSetDefault(e, "type", Str("__TBD__"), k);
    LookupSetDefault(e1, "seed", Dict([]), k);
    LookupSetDefault(e2, "angles", Dict([]), k);
    LookupSetDefault(e3, "lengths", Dict([]), k);
  }

  /** Reading a key after the last six steps. */
  lemma FinishLookup(e: Entries, k: string)
    ensures k == "points" ==> Lookup(Finish(e), k) == if Lookup(e, k).None? then Some(Dict([])) else Lookup(e, k)
    ensures k == "scale" ==> Lookup(Finish(e), k) == if Lookup(e, k).None? then Some(Num(1.0)) else Lookup(e, k)
    ensures k == "extras" ==> Lookup(Finish(e), k) == Some(ListOr(Lookup(e, k)))
    ensures k == "point_labels" ==> Lookup(Finish(e), k) == Some(DictOr(Lookup(e, k)))
    ensures k == "status" ==> Lookup(Finish(e), k) == Some(StatusOr(Lookup(e, k)))
    ensures k == "meta" ==> Lookup(Finish(e), k) == Some(Dict(ShapeMeta(Lookup(e, k))))
    ensures k !in {"points", "scale", "extras", "point_labels", "status", "meta"} ==> Lookup(Finish(e), k) == Lookup(e, k)
  {
    var e1 := SetDefault(e, "points", Dict([])).0;
    var e2 := SetDefault(e1, "scale", Num(1.0)).0;
    var e3 := Put(e2, "extras", ListOr(Lookup(e2, "extras")));
    var e4 := Put(e3, "point_labels", DictOr(Lookup(e3, "point_labels")));
    var e5 := Put(e4, "status", StatusOr(Lookup(e4, "status")));
    LookupSpec(e, "points");
    LookupSpec(e1, "scale");
    LookupSetDefault(e, "points", Dict([]), k);
    LookupSetDefault(e1, "scale", Num(1.0), k);
    LookupSetDefault(e, "points", Dict([]), "extras");
    LookupSetDefault(e1, "scale", Num(1.0), "extras");
    LookupSetDefault(e, "points", Dict([]), "point_labels");
    LookupSetDefault(e1, "scale", Num(1.0), "point_labels");
    LookupSetDefault(e, "points", Dict([]), "status");
    LookupSetDefault(e1, "scale", Num(1.0), "status");
    LookupSetDefault(e, "points", Dict([]), "meta");
    LookupSetDefault(e1, "scale", Num(1.0), "meta");
    LookupPut(e2, "extras", ListOr(Lookup(e2, "extras")), k);
    LookupPut(e2, "extras", ListOr(Lookup(e2, "extras")), "point_labels");
    LookupPut(e2, "extras", ListOr(Lookup(e2, "extras")), "status");
    LookupPut(e2, "extras", ListOr(Lookup(e2, "extras")), "meta");
    LookupPut(e3, "point_labels", DictOr(Lookup(e3, "point_labels")), k);
    LookupPut(e3, "point_labels", DictOr(Lookup(e3, "point_labels")), "status");
    LookupPut(e3, "point_labels", DictOr(Lookup(e3, "point_labels")), "meta");
    LookupPut(e4, "status", StatusOr(Lookup(e4, "status")), k);
    LookupPut(e4, "status", StatusOr(Lookup(e4, "status")), "meta");
    LookupPut(e5, "meta", Dict(ShapeMeta(Lookup(e5, "meta"))), k);
  }

  /** Only the box conversion can raise. */
  lemma ShapedFails(h: Host, spec: Value)
    ensures Shaped(h, spec).Err? <==> ShapeBox(h, Lookup(Base(spec), "box")).Err?
  {
    FilledLookup(Base(spec), "box");
  }

  /** Reading one key of the shaped spec: the key as the last six steps see it. */
  lemma ShapedLookup(h: Host, spec: Value, k: string)
    requires Shaped(h, spec).Ok?
    ensures var e := Filled(Base(spec));
            var box := ShapeBox(h, Lookup(e, "box")).value;
            && Lookup(e, "box") == Lookup(Base(spec), "box")
            && Lookup(Shaped(h, spec).value, k) == Lookup(Finish(Put(e, "box", box)), k)
            && Lookup(Put(e, "box", box), k) == if k == "box" then Some(box) else Lookup(e, k)
  {
    var e := Filled(Base(spec));
    FilledLookup(Base(spec), "box");
    LookupPut(e, "box", ShapeBox(h, Lookup(e, "box")).value, k);
  }

  /** Shaping keeps any value type, seed, angles, lengths, points and scale
      already have, and fills in the default for each one that is missing. */
  lemma ShapedDefaults(h: Host, spec: Value, k: string)
    requires Shaped(h, spec).Ok?
    ensures var d := Base(spec);
            var r := Shaped(h, spec).value;
            && (k == "type" ==> Lookup(r, k) == if Lookup(d, k).Some? then Lookup(d, k) else Some(Str("__TBD__")))
            && (k == "seed" || k == "angles" || k == "lengths" || k == "points" ==>
                  Lookup(r, k) == if Lookup(d, k).Some? then Lookup(d, k) else Some(Dict([])))
            && (k == "scale" ==> Lookup(r, k) == if Lookup(d, k).Some? then Lookup(d, k) else Some(Num(1.0)))
  {
    ShapedLookup(h, spec, k);
    FilledLookup(Base(spec), k);
    var e := Filled(Base(spec));
    FinishLookup(Put(e, "box", ShapeBox(h, Lookup(e, "box")).value), k);
  }

  /** Shaping rebuilds the box and forces extras, point_labels, status and meta into shape. */
  lemma ShapedForced(h: Host, spec: Value, k: string)
    requires Shaped(h, spec).Ok?
    ensures var d := Base(spec);
            var r := Shaped(h, spec).value;
            && (k == "box" ==> ShapeBox(h, Lookup(d, k)).Ok? && Lookup(r, k) == Some(ShapeBox(h, Lookup(d, k)).value))
            && (k == "extras" ==> Lookup(r, k) == Some(ListOr(Lookup(d, k))))
            && (k == "point_labels" ==> Lookup(r, k) == Some(DictOr(Lookup(d, k))))
            && (k == "status" ==> Lookup(r, k) == Some(StatusOr(Lookup(d, k))))
            && (k == "meta" ==> Lookup(r, k) == Some(Dict(ShapeMeta(Lookup(d, k)))))
  {
    var d := Base(spec);
    var e := Filled(d);
    var f := Put(e, "box", ShapeBox(h, Lookup(e, "box")).value);
    var r := Shaped(h, spec).value;
    ShapedFails(h, spec);
    ShapedLookup(h, spec, k);
    FilledLookup(d, k);
    FinishLookup(f, k);
    if k == "box" {
      assert Lookup(r, k) == Some(ShapeBox(h, Lookup(d, k)).value);
    } else if k == "extras" {
      assert Lookup(r, k) == Some(ListOr(Lookup(d, k)));
    } else if k == "point_labels" {
      assert Lookup(r, k) == Some(DictOr(Lookup(d, k)));
    } else if k == "status" {
      assert Lookup(r, k) == Some(StatusOr(Lookup(d, k)));
    } else if k == "meta" {
      assert Lookup(r, k) == Some(Dict(ShapeMeta(Lookup(d, k))));
    }
  }

  /** Every key shaping does not know about is left as it was. */
  lemma ShapedOthers(h: Host, spec: Value, k: string)
    requires Shaped(h, spec).Ok? && k !in ShapeKeys()
    ensures Lookup(Shaped(h, spec).value, k) == Lookup(Base(spec), k)
  {
    ShapedLookup(h, spec, k);
    FilledLookup(Base(spec), k);
    var e := Filled(Base(spec));
    FinishLookup(Put(e, "box", ShapeBox(h, Lookup(e, "box")).value), k);
  }

  /** The eleven keys shaping always leaves in the spec. */
  function ShapeKeys(): set<string> {
    {"type", "seed", "angles", "lengths", "box", "points", "scale", "extras", "point_labels", "status", "meta"}
  }

  /** A shaped spec is in shape. */
  lemma ShapedWellShaped(h: Host, spec: Value)
    requires Shaped(h, spec).Ok?
    ensures WellShaped(Shaped(h, spec).value)
  {
    ShapedHasDefaults(h, spec);
    ShapedInShape(h, spec);
  }

  lemma ShapedHasDefaults(h: Host, spec: Value)
    requires Shaped(h, spec).Ok?
    ensures HasDefaults(Shaped(h, spec).value)
  {
    ShapedDefaults(h, spec, "type");
    ShapedDefaults(h, spec, "seed");
    ShapedDefaults(h, spec, "angles");
    ShapedDefaults(h, spec, "lengths");
    ShapedDefaults(h, spec, "points");
    ShapedDefaults(h, spec, "scale");
  }

  lemma ShapedInShape(h: Host, spec: Value)
    requires Shaped(h, spec).Ok?
    ensures InShape(Shaped(h, spec).value)
  {
    ShapedFails(h, spec);
    ShapedForced(h, spec, "box");
    ShapedForced(h, spec, "extras");
    ShapedForced(h, spec, "point_labels");
    ShapedForced(h, spec, "status");
    ShapedForced(h, spec, "meta");
  }

  /** Shaping a spec that is already in shape returns it unchanged. */
  lemma ShapedFixes(h: Host, e: Entries)
    requires WellShaped(e)
    ensures Shaped(h, Dict(e)) == Ok(e)
  {
    FilledFixes(e);
    var box := Lookup(e, "box").value;
    PutSame(e, "box", box);
    FinishFixes(e);
  }

  /** The four defaults change nothing in a spec that has those keys. */
  lemma FilledFixes(e: Entries)
    requires HasDefaults(e)
    ensures Filled(e) == e
  {
    LookupSpec(e, "type");
    LookupSpec(e, "seed");
    LookupSpec(e, "angles");
    LookupSpec(e, "lengths");
  }

  /** The last six steps change nothing in a spec that is in shape. */
  lemma FinishFixes(e: Entries)
    requires WellShaped(e)
    ensures Finish(e) == e
  {
    LookupSpec(e, "points");
    LookupSpec(e, "scale");
    assert SetDefault(SetDefault(e, "points", Dict([])).0, "scale", Num(1.0)).0 == e;
    PutSame(e, "extras", Lookup(e, "extras").value);
    PutSame(e, "point_labels", Lookup(e, "point_labels").value);
    PutSame(e, "status", Lookup(e, "status").value);
    PutSame(e, "meta", Lookup(e, "meta").value);
  }

  /** `_ensure_spec_shape` is idempotent: shaping its own output gives the same spec. */
  lemma ShapedIdempotent(h: Host, spec: Value)
    requires Shaped(h, spec).Ok?
    ensures Shaped(h, Dict(Shaped(h, spec).value)) == Shaped(h, spec)
  {
    ShapedWellShaped(h, spec);
    ShapedFixes(h, Shaped(h, spec).value);
  }

  /** Shaping never overwrites a value the spec already has for type, seed,
      angles, lengths, points or scale, and never drops or reorders a key:
      the spec's keys come first, in their order, and missing ones follow. */
  lemma ShapedKeeps(h: Host, spec: Value, k: string)
    requires spec.Dict? && Shaped(h, spec).Ok?
    requires k == "type" || k == "seed" || k == "angles" || k == "lengths" || k == "points" || k == "scale"
    requires Lookup(spec.entries, k).Some?
    ensures Lookup(Shaped(h, spec).value, k) == Lookup(spec.entries, k)
  {
    ShapedDefaults(h, spec, k);
  }

  /** The keys the input had come first in the output, in their order. */
  lemma ShapedKeyOrder(h: Host, spec: Value)
    requires spec.Dict? && Shaped(h, spec).Ok?
    ensures Keys(spec.entries) <= Keys(Shaped(h, spec).value)
  {
    var e := Filled(spec.entries);
    FilledKeys(spec.entries);
    var box := ShapeBox(h, Lookup(e, "box")).value;
    KeysPut(e, "box", box);
    FinishKeys(Put(e, "box", box));
  }

  lemma FilledKeys(d: Entries)
    ensures Keys(d) <= Keys(Filled(d))
  {
    var e1 := SetDefault(d, "type", Str("__TBD__")).0;
    var e2 := SetDefault(e1, "seed", Dict([])).0;
    var e3 := SetDefault(e2, "angles", Dict([])).0;
    SetDefaultKeys(d, "type", Str("__TBD__"));
    SetDefaultKeys(e1, "seed", Dict([]));
    SetDefaultKeys(e2, "angles", Dict([]));
    SetDefaultKeys(e3, "lengths", Dict([]));
  }

  lemma FinishKeys(f: Entries)
    ensures Keys(f) <= Keys(Finish(f))
  {
    var f1 := SetDefault(f, "points", Dict([])).0;
    var f2 := SetDefault(f1, "scale", Num(1.0)).0;
    var f3 := Put(f2, "extras", ListOr(Lookup(f2, "extras")));
    var f4 := Put(f3, "point_labels", DictOr(Lookup(f3, "point_labels")));
    var f5 := Put(f4, "status", StatusOr(Lookup(f4, "status")));
    SetDefaultKeys(f, "points", Dict([]));
    SetDefaultKeys(f1, "scale", Num(1.0));
    KeysPut(f2, "extras", ListOr(Lookup(f2, "extras")));
    KeysPut(f3, "point_labels", DictOr(Lookup(f3, "point_labels")));
    KeysPut(f4, "status", StatusOr(Lookup(f4, "status")));
    KeysPut(f5, "meta", Dict(ShapeMeta(Lookup(f5, "meta"))));
  }

  lemma SetDefaultKeys(d: Entries, k: string, v: Value)
    ensures Keys(d) <= Keys(SetDefault(d, k, v).0)
  {
    if !HasKey(d, k) {
      assert SetDefault(d, k, v).0 == Put(d, k, v);
      KeysPut(d, k, v);
    }
  }

  /** Anything that is not a dict is shaped as `{}` would be. */
  lemma ShapedNonDict(h: Host, spec: Value)
    requires !spec.Dict?
    ensures Shaped(h, spec) == Shaped(h, Dict([]))
  {
  }

  /** The default template is exactly what shaping an empty spec produces. */
  lemma ShapedEmpty(h: Host)
    ensures Shaped(h, Dict([])) == Ok(DefaultTemplate().entries)
  {
    var t := DefaultTemplate().entries;
    TemplateLayout();
    FilledEmpty(t);
    TemplateBoxStep(h, t);
    FinishTemplate(t);
    ShapedFrom(h, Dict([]), t[..4], t[4].1, t);
  }

  /** Shaping as its three stages. */
  lemma ShapedFrom(h: Host, spec: Value, f: Entries, box: Value, t: Entries)
    requires Filled(Base(spec)) == f && ShapeBox(h, Lookup(f, "box")) == Ok(box)
    requires Finish(Put(f, "box", box)) == t
    ensures Shaped(h, spec) == Ok(t)
  {
  }

  /** The template's first four entries have no box, so the default box goes fifth. */
  lemma TemplateBoxStep(h: Host, t: Entries)
    requires TemplateEntries(t)
    ensures ShapeBox(h, Lookup(t[..4], "box")) == Ok(t[4].1)
    ensures Put(t[..4], "box", t[4].1) == t[..5]
  {
    AppendFresh(t, 4);
  }

  /** The template entry by entry: distinct keys, in this order, with these values. */
  predicate TemplateEntries(t: Entries) {
    && |t| == 11
    && (forall i, j | 0 <= i < j < 11 :: t[i].0 != t[j].0)
    && t[0] == ("type", Str("__TBD__")) && t[1] == ("seed", Dict([]))
    && t[2] == ("angles", Dict([])) && t[3] == ("lengths", Dict([]))
    && t[4] == ("box", DefaultBox()) && t[5] == ("points", Dict([]))
    && t[6] == ("scale", Num(1.0)) && t[7] == ("extras", List([]))
    && t[8] == ("point_labels", Dict([])) && t[9] == ("status", Str("draft"))
    && t[10] == ("meta", Dict([("notes", DefaultNotes())]))
  }

  lemma TemplateLayout()
    ensures TemplateEntries(DefaultTemplate().entries)
  {
    TemplateKeysDistinct();
  }

  /** The four defaults on `{}` give the template's first four entries. */
  lemma FilledEmpty(t: Entries)
    requires TemplateEntries(t)
    ensures Filled([]) == t[..4]
  {
    AppendFresh(t, 0);
    assert t[..0] == [];
    AppendFresh(t, 1);
    AppendFresh(t, 2);
    AppendFresh(t, 3);
  }

  /** The last six steps on the template's first five entries give the rest of it. */
  lemma FinishTemplate(t: Entries)
    requires TemplateEntries(t)
    ensures Finish(t[..5]) == t
  {
    TemplateDefaultsStep(t);
    TemplateExtrasStep(t);
    TemplateLabelsStep(t);
    TemplateStatusStep(t);
    TemplateMetaStep(t);
    FinishChain(t[..5], t[..7], t[..8], t[..9], t[..10], t);
  }

  /** `Finish` as the chain of its six steps. */
  lemma FinishChain(e0: Entries, e2: Entries, e3: Entries, e4: Entries, e5: Entries, e6: Entries)
    requires SetDefault(SetDefault(e0, "points", Dict([])).0, "scale", Num(1.0)).0 == e2
    requires Put(e2, "extras", ListOr(Lookup(e2, "extras"))) == e3
    requires Put(e3, "point_labels", DictOr(Lookup(e3, "point_labels"))) == e4
    requires Put(e4, "status", StatusOr(Lookup(e4, "status"))) == e5
    requires Put(e5, "meta", Dict(ShapeMeta(Lookup(e5, "meta")))) == e6
    ensures Finish(e0) == e6
  {
  }

  lemma TemplateDefaultsStep(t: Entries)
    requires TemplateEntries(t)
    ensures SetDefault(SetDefault(t[..5], "points", Dict([])).0, "scale", Num(1.0)).0 == t[..7]
  {
    AppendFresh(t, 5);
    AppendFresh(t, 6);
  }

  lemma TemplateExtrasStep(t: Entries)
    requires TemplateEntries(t)
    ensures Put(t[..7], "extras", ListOr(Lookup(t[..7], "extras"))) == t[..8]
  {
    AppendFresh(t, 7);
  }

  lemma TemplateLabelsStep(t: Entries)
    requires TemplateEntries(t)
    ensures Put(t[..8], "point_labels", DictOr(Lookup(t[..8], "point_labels"))) == t[..9]
  {
    AppendFresh(t, 8);
  }

  lemma TemplateStatusStep(t: Entries)
    requires TemplateEntries(t)
    ensures Put(t[..9], "status", StatusOr(Lookup(t[..9], "status"))) == t[..10]
  {
    AppendFresh(t, 9);
  }

  lemma TemplateMetaStep(t: Entries)
    requires TemplateEntries(t)
    ensures Put(t[..10], "meta", Dict(ShapeMeta(Lookup(t[..10], "meta")))) == t
  {
    AppendFresh(t, 10);
    MetaStepOf(t[..10], t[..11], t[10].1);
    assert t[..|t|] == t;
  }

  lemma MetaStepOf(e: Entries, t: Entries, v: Value)
    requires Lookup(e, "meta") == None && v == Dict([("notes", DefaultNotes())]) && Put(e, "meta", v) == t
    ensures Put(e, "meta", Dict(ShapeMeta(Lookup(e, "meta")))) == t
  {
  }

  /** The template's eleven keys, in order. */
  function TemplateKeys(): seq<string> {
    ["type", "seed", "angles", "lengths", "box", "points", "scale", "extras", "point_labels", "status", "meta"]
  }

  lemma TemplateKeysDistinct()
    ensures |DefaultTemplate().entries| == 11
    ensures forall i, j | 0 <= i < j < 11 :: DefaultTemplate().entries[i].0 != DefaultTemplate().entries[j].0
  {
    var t := DefaultTemplate().entries;
    assert forall i | 0 <= i < 11 :: t[i].0 == TemplateKeys()[i];
    assert forall i, j | 0 <= i < j < 11 :: TemplateKeys()[i] != TemplateKeys()[j];
  }

  /** Entry `n` of `t` carries a key none of the entries before it has: both
      assigning and defaulting that key after the first `n` entries give the
      first `n + 1`. */
  lemma AppendFresh(t: Entries, n: nat)
    requires n < |t| && forall i | 0 <= i < n :: t[i].0 != t[n].0
    ensures Lookup(t[..n], t[n].0) == None
    ensures Put(t[..n], t[n].0, t[n].1) == t[..n + 1]
    ensures SetDefault(t[..n], t[n].0, t[n].1).0 == t[..n + 1]
  {
    LookupSpec(t[..n], t[n].0);
    assert t[..n + 1] == t[..n] + [t[n]];
  }

  /** The default template is in shape, and its fields are the documented defaults. */
  lemma DefaultTemplateFields()
    ensures WellShaped(DefaultTemplate().entries)
    ensures Lookup(DefaultTemplate().entries, "type") == Some(Str("__TBD__"))
    ensures Lookup(DefaultTemplate().entries, "status") == Some(Str("draft"))
    ensures Lookup(DefaultTemplate().entries, "scale") == Some(Num(1.0))
    ensures Lookup(DefaultTemplate().entries, "box") == Some(DefaultBox())
  {
    var h :| true;
    ShapedEmpty(h);
    ShapedWellShaped(h, Dict([]));
    ShapedDefaults(h, Dict([]), "type");
    ShapedDefaults(h, Dict([]), "scale");
    ShapedForced(h, Dict([]), "status");
    ShapedForced(h, Dict([]), "box");
  }

  // ---------------------------------------------------------- generate_spec

  /** The draft `generate_spec` starts from: a non-empty template wins (and
      the model is not asked), then the model's spec, then the default. */
  function Chosen(template: Entries, llm: Option<(Entries, Entries)>): (v: Value)
    ensures template != [] ==> v == Dict(template)
    ensures template == [] && llm.Some? ==> v == Dict(llm.value.0)
    ensures template == [] && llm.None? ==> v == DefaultTemplate()
  {
    if template != [] then Dict(template)
    else if llm.Some? then Dict(llm.value.0)
    else DefaultTemplate()
  }

  /** The answer `generate_spec` uses: the model is only asked without a template. */
  function Asked(template: Entries, llm: Option<(Entries, Entries)>): Option<(Entries, Entries)> {
    if template != [] then None else llm
  }

  /** The provenance written into `meta`: "llm" with the model's settings merged
      into `meta.llm`, or else "template"/"default" unless one is already there. */
  function Provenance(meta: Entries, template: Entries, asked: Option<(Entries, Entries)>): Result<Entries> {
    if asked.Some? then
      var m1 := Put(meta, "generated_by", Str("llm"));
      var (m2, settings) := SetDefault(m1, "llm", Dict([]));
      if !settings.Dict? then Err(AttributeError)
      else Ok(Put(m2, "llm", Dict(Update(settings.entries, asked.value.1))))
    else if template != [] then Ok(SetDefault(meta, "generated_by", Str("template")).0)
    else Ok(SetDefault(meta, "generated_by", Str("default")).0)
  }

  /** The spec `generate_spec` writes when it writes one: the chosen draft in
      shape, stamped with its creation time and provenance, status "draft". */
  function Drafted(h: Host, template: Entries, llm: Option<(Entries, Entries)>, now: string): Result<Entries> {
    var spec :- Shaped(h, Chosen(template, llm));
    ShapedInShape(h, Chosen(template, llm));
    var meta := Put(Lookup(spec, "meta").value.entries, "created_at", Str(now + "Z"));
    var meta2 :- Provenance(meta, template, Asked(template, llm));
    Ok(Put(Put(spec, "meta", Dict(meta2)), "status", Str("draft")))
  }

  /** Stamping the provenance touches `generated_by` and `llm` only: with a
      model answer it records "llm" and merges the model's settings into the
      `llm` dict (raising when `llm` holds something that is not a dict);
      otherwise it records "template" or "default" unless `generated_by` is
      already set. */
  lemma ProvenanceFields(meta: Entries, template: Entries, asked: Option<(Entries, Entries)>, k: string)
    ensures var r := Provenance(meta, template, asked);
            && (asked.None? ==> r.Ok?)
            && (asked.Some? ==> (r.Err? <==> Lookup(meta, "llm").Some? && !Lookup(meta, "llm").value.Dict?))
            && (r.Ok? && k != "generated_by" && k != "llm" ==> Lookup(r.value, k) == Lookup(meta, k))
            && (r.Ok? && asked.Some? ==>
                  && Lookup(r.value, "generated_by") == Some(Str("llm"))
                  && Lookup(r.value, "llm").Some? && Lookup(r.value, "llm").value.Dict?
                  && (HasKey(asked.value.1, k) ==> Lookup(Lookup(r.value, "llm").value.entries, k).Some?))
            && (asked.None? ==>
                  Lookup(r.value, "generated_by")
                    == if Lookup(meta, "generated_by").Some? then Lookup(meta, "generated_by")
                       else Some(Str(if template != [] then "template" else "default")))
            && (asked.None? && k != "generated_by" ==> Lookup(r.value, k) == Lookup(meta, k))
  {
    LookupSpec(meta, "generated_by");
    if asked.Some? {
      var m1 := Put(meta, "generated_by", Str("llm"));
      LookupPut(meta, "generated_by", Str("llm"), "llm");
      LookupPut(meta, "generated_by", Str("llm"), k);
      LookupPut(meta, "generated_by", Str("llm"), "generated_by");
      var (m2, settings) := SetDefault(m1, "llm", Dict([]));
      LookupSpec(m1, "llm");
      LookupSetDefault(m1, "llm", Dict([]), k);
      LookupSetDefault(m1, "llm", Dict([]), "generated_by");
      if settings.Dict? {
        var merged := Update(settings.entries, asked.value.1);
        LookupPut(m2, "llm", Dict(merged), k);
        LookupPut(m2, "llm", Dict(merged), "llm");
        LookupPut(m2, "llm", Dict(merged), "generated_by");
        LookupUpdate(settings.entries, asked.value.1, k);
      }
    } else {
      var v := Str(if template != [] then "template" else "default");
      LookupSetDefault(meta, "generated_by", v, k);
      LookupSetDefault(meta, "generated_by", v, "generated_by");
    }
  }

  /** What the drafted spec holds: the shaped draft with status "draft" and
      a meta dict stamped with the creation time and the provenance; all
      other fields are the shaped draft's. */
  lemma DraftedFields(h: Host, template: Entries, llm: Option<(Entries, Entries)>, now: string, k: string)
    ensures Drafted(h, template, llm, now).Ok? ==> Shaped(h, Chosen(template, llm)).Ok?
    ensures Drafted(h, template, llm, now).Ok? ==>
              var s := Shaped(h, Chosen(template, llm)).value;
              var d := Drafted(h, template, llm, now).value;
              && Lookup(s, "meta").Some? && Lookup(s, "meta").value.Dict?
              && Lookup(d, "status") == Some(Str("draft"))
              && (k != "meta" && k != "status" ==> Lookup(d, k) == Lookup(s, k))
              && var meta := Put(Lookup(s, "meta").value.entries, "created_at", Str(now + "Z"));
                 && Provenance(meta, template, Asked(template, llm)).Ok?
                 && Lookup(d, "meta") == Some(Dict(Provenance(meta, template, Asked(template, llm)).value))
  {
    var r := Shaped(h, Chosen(template, llm));
    if r.Ok? {
      ShapedWellShaped(h, Chosen(template, llm));
      var s := r.value;
      var meta := Put(Lookup(s, "meta").value.entries, "created_at", Str(now + "Z"));
      var p := Provenance(meta, template, Asked(template, llm));
      if p.Ok? {
        var d1 := Put(s, "meta", Dict(p.value));
        LookupPut(d1, "status", Str("draft"), k);
        LookupPut(d1, "status", Str("draft"), "status");
        LookupPut(d1, "status", Str("draft"), "meta");
        LookupPut(s, "meta", Dict(p.value), k);
        LookupPut(s, "meta", Dict(p.value), "meta");
      }
    }
  }

  /** Every spec `generate_spec` writes is in shape, has status "draft", and
      its meta records when it was created. */
  lemma DraftedWellShaped(h: Host, template: Entries, llm: Option<(Entries, Entries)>, now: string)
    requires Drafted(h, template, llm, now).Ok?
    ensures var d := Drafted(h, template, llm, now).value;
            && WellShaped(d)
            && Lookup(d, "status") == Some(Str("draft"))
            && Lookup(Lookup(d, "meta").value.entries, "created_at") == Some(Str(now + "Z"))
  {
    var s := Shaped(h, Chosen(template, llm)).value;
    ShapedWellShaped(h, Chosen(template, llm));
    DraftedFields(h, template, llm, now, "type");
    DraftedFields(h, template, llm, now, "seed");
    DraftedFields(h, template, llm, now, "angles");
    DraftedFields(h, template, llm, now, "lengths");
    DraftedFields(h, template, llm, now, "points");
    DraftedFields(h, template, llm, now, "scale");
    DraftedFields(h, template, llm, now, "box");
    DraftedFields(h, template, llm, now, "extras");
    DraftedFields(h, template, llm, now, "point_labels");
    var m0 := Lookup(s, "meta").value.entries;
    var meta := Put(m0, "created_at", Str(now + "Z"));
    LookupPut(m0, "created_at", Str(now + "Z"), "notes");
    LookupPut(m0, "created_at", Str(now + "Z"), "created_at");
    ProvenanceFields(meta, template, Asked(template, llm), "notes");
    ProvenanceFields(meta, template, Asked(template, llm), "created_at");
  }

  /** The provenance meta of a drafted spec. */
  function DraftedMeta(h: Host, template: Entries, llm: Option<(Entries, Entries)>, now: string): (m: Entries)
    requires Drafted(h, template, llm, now).Ok?
    ensures Lookup(Drafted(h, template, llm, now).value, "meta") == Some(Dict(m))
  {
    DraftedFields(h, template, llm, now, "meta");
    Lookup(Drafted(h, template, llm, now).value, "meta").value.entries
  }

  /** The "generated_by" stamp the draft had before provenance was added. */
  function GivenProvenance(h: Host, template: Entries, llm: Option<(Entries, Entries)>): Option<Value>
    requires Shaped(h, Chosen(template, llm)).Ok?
  {
    ShapedWellShaped(h, Chosen(template, llm));
    Lookup(Lookup(Shaped(h, Chosen(template, llm)).value, "meta").value.entries, "generated_by")
  }

  /** Where the provenance comes from: "llm" when the model's answer was used;
      otherwise whatever the draft already said, falling back to "template"
      for a template and "default" for the built-in draft. */
  lemma DraftedProvenance(h: Host, template: Entries, llm: Option<(Entries, Entries)>, now: string)
    requires Drafted(h, template, llm, now).Ok?
    ensures Shaped(h, Chosen(template, llm)).Ok?
    ensures var gen := Lookup(DraftedMeta(h, template, llm, now), "generated_by");
            && (template == [] && llm.Some? ==> gen == Some(Str("llm")))
            && (template != [] || llm.None? ==>
                  var given := GivenProvenance(h, template, llm);
                  gen == if given.Some? then given else Some(Str(if template != [] then "template" else "default")))
  {
    DraftedFields(h, template, llm, now, "meta");
    var s := Shaped(h, Chosen(template, llm)).value;
    var m0 := Lookup(s, "meta").value.entries;
    var meta := Put(m0, "created_at", Str(now + "Z"));
    LookupPut(m0, "created_at", Str(now + "Z"), "generated_by");
    ProvenanceFields(meta, template, Asked(template, llm), "generated_by");
  }

  /** The built-in draft carries no provenance of its own, so it is stamped "default". */
  lemma DefaultProvenance(h: Host, now: string)
    requires Drafted(h, [], None, now).Ok?
    ensures Lookup(DraftedMeta(h, [], None, now), "generated_by") == Some(Str("default"))
  {
    DraftedProvenance(h, [], None, now);
    DefaultTemplateFields();
    ShapedFixes(h, DefaultTemplate().entries);
    TemplateMeta();
  }

  /** The template's meta holds its notes and nothing else. */
  lemma TemplateMeta()
    ensures Lookup(DefaultTemplate().entries, "meta") == Some(Dict([("notes", DefaultNotes())]))
    ensures Lookup([("notes", DefaultNotes())], "generated_by") == None
  {
    var t := DefaultTemplate().entries;
    TemplateLayout();
    TemplateLookupMeta(t);
    NotesOnlyMeta();
  }

  lemma TemplateLookupMeta(t: Entries)
    requires TemplateEntries(t)
    ensures Lookup(t, "meta") == Some(Dict([("notes", DefaultNotes())]))
  {
    LookupAt(t, 10, "meta");
  }

  lemma NotesOnlyMeta()
    ensures Lookup([("notes", DefaultNotes())], "generated_by") == None
  {
    var m: Entries := [("notes", DefaultNotes())];
    assert |m[0].0| != |"generated_by"|;
    assert m[1..] == [];
  }

  /** A non-empty template decides the draft alone: the model's answer is never used. */
  lemma TemplateSuppressesModel(h: Host, template: Entries, llm1: Option<(Entries, Entries)>, llm2: Option<(Entries, Entries)>, now: string)
    requires template != []
    ensures Drafted(h, template, llm1, now) == Drafted(h, template, llm2, now)
  {
  }

  /** `spec_path or problem_dir / "spec.json"`. */
  function DraftPath(dir: string, specPath: Option<string>): string {
    if specPath.Some? then specPath.value else Join(dir, "spec.json")
  }

  /** `generate_spec(problem_dir, spec_path=..., overwrite=..., template=...)`:
      an existing file is returned as read unless `overwrite`; otherwise the
      drafted spec is written and returned.  Whatever it returns is what the
      file then holds. */
  method GenerateSpec(h: Host, fs: Fs, dir: string, specPath: Option<string>, overwrite: bool,
                      template: Entries, llm: Option<(Entries, Entries)>, now: string)
    returns (fs': Fs, r: Result<Value>)
    ensures var path := DraftPath(dir, specPath);
            path in fs && !overwrite ==> fs' == fs && r == Load(fs, path)
    ensures var path := DraftPath(dir, specPath);
            !(path in fs && !overwrite) ==>
              var d := Drafted(h, template, llm, now);
              && (d.Err? ==> fs' == fs && r == Err(d.error))
              && (d.Ok? ==> fs' == Dump(fs, path, Dict(d.value)).0
                            && r == (if Serialisable(Dict(d.value)) then Ok(Dict(d.value)) else Err(TypeError)))
    ensures r.Ok? ==> Load(fs', DraftPath(dir, specPath)) == r
  {
    var path := DraftPath(dir, specPath);
    if path in fs && !overwrite {
      return fs, Load(fs, path);
    }
    var drafted := Draft(h, template, llm, now);
    if drafted.Err? {
      return fs, Err(drafted.error);
    }
    var e := drafted.value;
    var dumped := Dump(fs, path, Dict(e));
    fs' := dumped.0;
    DumpLoad(fs, path, Dict(e));
    if dumped.1.Err? {
      return fs', Err(dumped.1.error);
    }
    r := Ok(Dict(e));
  }

  /** The draft `generate_spec` writes: the chosen spec, shaped, with
      `created_at` and provenance stamped and status reset to "draft". */
  method Draft(h: Host, template: Entries, llm: Option<(Entries, Entries)>, now: string)
    returns (r: Result<Entries>)
    ensures r == Drafted(h, template, llm, now)
  {
    var asked := if template == [] then llm else None;
    var spec: Value;
    if template != [] {
      spec := Dict(template);
    } else if asked.Some? {
      spec := Dict(asked.value.0);
    } else {
      spec := DefaultTemplate();
    }
    assert spec == Chosen(template, llm) && asked == Asked(template, llm);
    var shaped := EnsureSpecShape(h, spec);
    if shaped.Err? {
      return Err(shaped.error);
    }
    var e := shaped.value;
    ShapedInShape(h, spec);
    var meta := Lookup(e, "meta").value.entries;
    meta := Put(meta, "created_at", Str(now + "Z"));
    var stamped := Provenance(meta, template, asked);
    if stamped.Err? {
      return Err(stamped.error);
    }
    e := Put(e, "meta", Dict(stamped.value));
    e := Put(e, "status", Str("draft"));
    r := Ok(e);
  }

  /** `ensure_spec(problem_dir, spec_path=...)`: the file's contents when it
      exists, otherwise a fresh draft written by `generate_spec`. */
  method EnsureSpec(h: Host, fs: Fs, dir: string, specPath: Option<string>,
                    llm: Option<(Entries, Entries)>, now: string)
    returns (fs': Fs, r: Result<Value>)
    ensures var path := DraftPath(dir, specPath);
            path in fs ==> fs' == fs && r == Load(fs, path)
    ensures var path := DraftPath(dir, specPath);
            path !in fs ==>
              var d := Drafted(h, [], llm, now);
              && (d.Err? ==> fs' == fs && r == Err(d.error))
              && (d.Ok? ==> fs' == Dump(fs, path, Dict(d.value)).0)
    ensures r.Ok? ==> Load(fs', DraftPath(dir, specPath)) == r
  {
    var path := DraftPath(dir, specPath);
    if path in fs {
      return fs, Load(fs, path);
    }
    fs', r := GenerateSpec(h, fs, dir, Some(path), false, [], llm, now);
  }

  /** `ensure_spec` is idempotent: once it has returned a spec, calling it
      again changes nothing and returns the same spec, whatever the model
      would answer the second time. */
  method EnsureSpecTwice(h: Host, fs: Fs, dir: string, specPath: Option<string>,
                         llm1: Option<(Entries, Entries)>, llm2: Option<(Entries, Entries)>, now1: string, now2: string)
    returns (fs2: Fs, r1: Result<Value>, r2: Result<Value>)
    ensures r1.Ok? ==> r2 == r1
  {
    var fs1;
    fs1, r1 := EnsureSpec(h, fs, dir, specPath, llm1, now1);
    fs2, r2 := EnsureSpec(h, fs1, dir, specPath, llm2, now2);
  }

  // ---------------------------------------------------------- generate_specs_for_all_images

  /** `problem_dir / f"spec_{i}.json"`. */
  function SpecFile(dir: string, i: nat): string {
    Join(dir, "spec_" + NatToString(i) + ".json")
  }

  /** `problem_dir / "vector_anchors.json"`. */
  function AnchorsPath(dir: string): string {
    Join(dir, "vector_anchors.json")
  }

  /** Different images have different spec files. */
  lemma SpecFileInjective(dir: string, i: nat, j: nat)
    requires SpecFile(dir, i) == SpecFile(dir, j)
    ensures i == j
  {
    var a, b := NatToString(i), NatToString(j);
    var p := SpecFile(dir, i);
    var at := |dir| + 6;
    assert |a| == |b|;
    assert p[at..at + |a|] == a;
    assert SpecFile(dir, j)[at..at + |b|] == b;
    NatToStringValue(i);
    NatToStringValue(j);
  }

  /** The loop never writes the anchors file it read. */
  lemma SpecFileNotAnchors(dir: string, i: nat)
    ensures SpecFile(dir, i) != AnchorsPath(dir)
  {
    assert SpecFile(dir, i)[|dir| + 1] == 's';
    assert AnchorsPath(dir)[|dir| + 1] == 'v';
  }

  /** The images to draft specs for: the `vector_anchors` list of
      `vector_anchors.json`, or none when the file is missing, unreadable or
      the list is empty.  A document that is not a dict, or anchors that are
      not iterable, raise. */
  function Anchors(fs: Fs, dir: string): Result<seq<Value>> {
    var path := AnchorsPath(dir);
    if path !in fs then Ok([])
    else match Load(fs, path)
      case Err(_) => Ok([])
      case Ok(data) =>
        var anchors :- Get(data, "vector_anchors", List([]));
        if !Truthy(anchors) then Ok([]) else Iterate(anchors)
  }

  /** The model's spec for image `i`, with its index, the anchor's image path,
      the time, the provenance and the model's settings added to its meta.
      A meta that is not a dict, or an anchor that is not a dict, raises. */
  function Stamp(obj: Entries, i: nat, item: Value, settings: Entries, now: string): (r: Result<Entries>)
    ensures r.Ok? ==>
              && Lookup(r.value, "meta").Some? && Lookup(r.value, "meta").value.Dict?
              && var meta := Lookup(r.value, "meta").value.entries;
                 && Lookup(meta, "image_index") == Some(Num(i as real))
                 && Lookup(meta, "generated_by") == Some(Str("llm"))
                 && Lookup(meta, "llm") == Some(Dict(settings))
                 && Lookup(meta, "created_at") == Some(Str(now + "Z"))
    ensures r.Ok? ==> forall k :: k != "meta" ==> Lookup(r.value, k) == Lookup(obj, k)
    ensures r.Err? <==> !GetOr(obj, "meta", Dict([])).Dict? || !item.Dict?
  {
    var m := GetOr(obj, "meta", Dict([]));
    if !m.Dict? then Err(TypeError)
    else if !item.Dict? then Err(AttributeError)
    else
      var m1 := Put(m.entries, "image_index", Num(i as real));
      var m2 := Put(m1, "image_path", GetOr(item.entries, "image_path", Str("")));
      var m3 := Put(m2, "created_at", Str(now + "Z"));
      var m4 := Put(m3, "generated_by", Str("llm"));
      var m5 := Put(m4, "llm", Dict(settings));
      var o1 := Put(obj, "meta", m);
      var o2 := Put(o1, "meta", Dict(m5));
      LookupPut(m4, "llm", Dict(settings), "image_index");
      LookupPut(m3, "generated_by", Str("llm"), "image_index");
      LookupPut(m2, "created_at", Str(now + "Z"), "image_index");
      LookupPut(m1, "image_path", GetOr(item.entries, "image_path", Str("")), "image_index");
      LookupPut(m.entries, "image_index", Num(i as real), "image_index");
      LookupPut(m4, "llm", Dict(settings), "generated_by");
      LookupPut(m3, "generated_by", Str("llm"), "generated_by");
      LookupPut(m4, "llm", Dict(settings), "llm");
      LookupPut(m4, "llm", Dict(settings), "created_at");
      LookupPut(m3, "generated_by", Str("llm"), "created_at");
      LookupPut(m2, "created_at", Str(now + "Z"), "created_at");
      LookupPut(o1, "meta", Dict(m5), "meta");
      assert forall k :: k != "meta" ==> Lookup(o2, k) == Lookup(obj, k) by {
        forall k | k != "meta" ensures Lookup(o2, k) == Lookup(obj, k) {
          LookupPut(o1, "meta", Dict(m5), k);
          LookupPut(obj, "meta", m, k);
        }
      }
      Ok(o2)
  }

  /** One image: an existing, readable `spec_<i>.json` is kept unless
      `overwrite`; otherwise the model's spec, if any, is stamped and written. */
  function Step(fs: Fs, dir: string, overwrite: bool, gen: (nat, Value) -> Option<(Entries, Entries)>,
                now: string, i: nat, item: Value): (r: (Fs, Result<Option<Value>>))
    ensures r.0.Keys <= fs.Keys + {SpecFile(dir, i)}
    ensures forall q :: q in fs && q != SpecFile(dir, i) ==> q in r.0 && r.0[q] == fs[q]
    ensures r.1.Ok? && r.1.value.Some? ==> Load(r.0, SpecFile(dir, i)) == Ok(r.1.value.value)
  {
    var path := SpecFile(dir, i);
    if path in fs && !overwrite && Load(fs, path).Ok? then (fs, Ok(Some(Load(fs, path).value)))
    else match gen(i, item)
      case None => (fs, Ok(None))
      case Some(answer) =>
        match Stamp(answer.0, i, item, answer.1, now)
        case Err(e) => (fs, Err(e))
        case Ok(obj) =>
          var (fs2, saved) := Dump(fs, path, Dict(obj));
          DumpLoad(fs, path, Dict(obj));
          if saved.Err? then (fs2, Err(saved.error)) else (fs2, Ok(Some(Dict(obj))))
  }

  /** The loop over the first `|items|` images: the specs kept so far, each
      with the index of its image. */
  function Loop(fs: Fs, dir: string, overwrite: bool, gen: (nat, Value) -> Option<(Entries, Entries)>,
                now: string, items: seq<Value>): (Fs, Result<seq<(nat, Value)>>)
    decreases |items|
  {
    if items == [] then (fs, Ok([]))
    else
      var n := |items| - 1;
      var (fs1, r1) := Loop(fs, dir, overwrite, gen, now, items[..n]);
      if r1.Err? then (fs1, r1)
      else
        var (fs2, s) := Step(fs1, dir, overwrite, gen, now, n, items[n]);
        if s.Err? then (fs2, Err(s.error))
        else (fs2, Ok(r1.value + if s.value.Some? then [(n, s.value.value)] else []))
  }

  /** The specs alone, without their indices. */
  function Specs(ps: seq<(nat, Value)>): (vs: seq<Value>)
    ensures |vs| == |ps| && forall k :: 0 <= k < |ps| ==> vs[k] == ps[k].1
  {
    seq(|ps|, k requires 0 <= k < |ps| => ps[k].1)
  }

  /** `generate_specs_for_all_images(problem_dir, overwrite=...)`. */
  method GenerateSpecsForAllImages(fs: Fs, dir: string, overwrite: bool,
                                   gen: (nat, Value) -> Option<(Entries, Entries)>, now: string)
    returns (fs': Fs, r: Result<seq<Value>>)
    ensures Anchors(fs, dir).Err? ==> fs' == fs && r == Err(Anchors(fs, dir).error)
    ensures Anchors(fs, dir).Ok? ==>
              var out := Loop(fs, dir, overwrite, gen, now, Anchors(fs, dir).value);
              && fs' == out.0
              && r == if out.1.Ok? then Ok(Specs(out.1.value)) else Err(out.1.error)
  {
    var items := Anchors(fs, dir);
    if items.Err? {
      return fs, Err(items.error);
    }
    var anchors := items.value;
    fs' := fs;
    var generated: seq<Value> := [];
    ghost var tagged: seq<(nat, Value)> := [];
    for i := 0 to |anchors|
      invariant Loop(fs, dir, overwrite, gen, now, anchors[..i]) == (fs', Ok(tagged))
      invariant generated == Specs(tagged)
    {
      LoopSnoc(fs, dir, overwrite, gen, now, anchors, i);
      var fs2, spec := GenerateOne(fs', dir, overwrite, gen, now, i, anchors[i]);
      if spec.Err? {
        LoopStops(fs, dir, overwrite, gen, now, anchors, i + 1);
        return fs2, Err(spec.error);
      }
      fs' := fs2;
      if spec.value.Some? {
        SpecsSnoc(tagged, (i, spec.value.value));
        generated, tagged := generated + [spec.value.value], tagged + [(i, spec.value.value)];
      } else {
        assert tagged + [] == tagged;
      }
    }
    assert anchors[..|anchors|] == anchors;
    r := Ok(generated);
  }

  /** The loop body for image `i`: keep the existing spec file, or ask the
      model, stamp its answer and write it. */
  method GenerateOne(fs: Fs, dir: string, overwrite: bool, gen: (nat, Value) -> Option<(Entries, Entries)>,
                     now: string, i: nat, item: Value)
    returns (fs': Fs, spec: Result<Option<Value>>)
    ensures (fs', spec) == Step(fs, dir, overwrite, gen, now, i, item)
  {
    var path := SpecFile(dir, i);
    if path in fs && !overwrite {
      var existing := Load(fs, path);
      if existing.Ok? {
        return fs, Ok(Some(existing.value));
      }
    }
    var answer := gen(i, item);
    if answer.None? {
      return fs, Ok(None);
    }
    var stamped := Stamp(answer.value.0, i, item, answer.value.1, now);
    if stamped.Err? {
      return fs, Err(stamped.error);
    }
    var dumped := Dump(fs, path, Dict(stamped.value));
    if dumped.1.Err? {
      return dumped.0, Err(dumped.1.error);
    }
    return dumped.0, Ok(Some(Dict(stamped.value)));
  }

  lemma SpecsSnoc(ps: seq<(nat, Value)>, p: (nat, Value))
    ensures Specs(ps + [p]) == Specs(ps) + [p.1]
  {
  }

  /** Once an image raises, the later ones are not looked at. */
  lemma {:induction false} LoopStops(fs: Fs, dir: string, overwrite: bool, gen: (nat, Value) -> Option<(Entries, Entries)>,
                                     now: string, items: seq<Value>, i: nat)
    requires i <= |items| && Loop(fs, dir, overwrite, gen, now, items[..i]).1.Err?
    ensures Loop(fs, dir, overwrite, gen, now, items) == Loop(fs, dir, overwrite, gen, now, items[..i])
    decreases |items| - i
  {
    if i < |items| {
      assert items[..i + 1][..i] == items[..i];
      LoopStops(fs, dir, overwrite, gen, now, items, i + 1);
    } else {
      assert items[..i] == items;
    }
  }

  /** One more image: the loop so far, then one `Step` unless it already raised. */
  lemma LoopSnoc(fs: Fs, dir: string, overwrite: bool, gen: (nat, Value) -> Option<(Entries, Entries)>,
                 now: string, items: seq<Value>, i: nat)
    requires i < |items|
    ensures var prev := Loop(fs, dir, overwrite, gen, now, items[..i]);
            prev.1.Ok? ==>
              var step := Step(prev.0, dir, overwrite, gen, now, i, items[i]);
              Loop(fs, dir, overwrite, gen, now, items[..i + 1])
                == (step.0, if step.1.Err? then Err(step.1.error)
                            else Ok(prev.1.value + if step.1.value.Some? then [(i, step.1.value.value)] else []))
  {
    assert items[..i + 1][..i] == items[..i];
  }

  /** The spec files of the first `n` images. */
  function SpecFiles(dir: string, n: nat): set<string> {
    set i | 0 <= i < n :: SpecFile(dir, i)
  }

  /** The loop writes the first `|items|` spec files and nothing else; in
      particular `vector_anchors.json` is left as it was. */
  lemma {:induction false} LoopFrame(fs: Fs, dir: string, overwrite: bool, gen: (nat, Value) -> Option<(Entries, Entries)>,
                                     now: string, items: seq<Value>)
    ensures var out := Loop(fs, dir, overwrite, gen, now, items);
            && out.0.Keys <= fs.Keys + SpecFiles(dir, |items|)
            && forall q :: q in fs && q !in SpecFiles(dir, |items|) ==> q in out.0 && out.0[q] == fs[q]
    ensures AnchorsPath(dir) !in SpecFiles(dir, |items|)
    decreases |items|
  {
    AnchorsNotSpecFile(dir, |items|);
    if items != [] {
      var n := |items| - 1;
      LoopFrame(fs, dir, overwrite, gen, now, items[..n]);
      LoopLastFrame(fs, dir, overwrite, gen, now, items);
      assert SpecFiles(dir, n + 1) == SpecFiles(dir, n) + {SpecFile(dir, n)};
      FrameCompose(fs, Loop(fs, dir, overwrite, gen, now, items[..n]).0, Loop(fs, dir, overwrite, gen, now, items).0,
                   SpecFiles(dir, n), SpecFile(dir, n));
    }
  }

  lemma AnchorsNotSpecFile(dir: string, n: nat)
    ensures AnchorsPath(dir) !in SpecFiles(dir, n)
  {
    forall i | 0 <= i < n ensures SpecFile(dir, i) != AnchorsPath(dir) {
      SpecFileNotAnchors(dir, i);
    }
  }

  /** The last image changes at most its own spec file. */
  lemma LoopLastFrame(fs: Fs, dir: string, overwrite: bool, gen: (nat, Value) -> Option<(Entries, Entries)>,
                      now: string, items: seq<Value>)
    requires items != []
    ensures var n := |items| - 1;
            var prev := Loop(fs, dir, overwrite, gen, now, items[..n]).0;
            var out := Loop(fs, dir, overwrite, gen, now, items).0;
            && out.Keys <= prev.Keys + {SpecFile(dir, n)}
            && forall q :: q in prev && q != SpecFile(dir, n) ==> q in out && out[q] == prev[q]
  {
  }

  /** Two frames in a row make one. */
  lemma FrameCompose(fs: Fs, mid: Fs, out: Fs, done: set<string>, p: string)
    requires mid.Keys <= fs.Keys + done && forall q :: q in fs && q !in done ==> q in mid && mid[q] == fs[q]
    requires out.Keys <= mid.Keys + {p} && forall q :: q in mid && q != p ==> q in out && out[q] == mid[q]
    ensures out.Keys <= fs.Keys + (done + {p})
    ensures forall q :: q in fs && q !in done + {p} ==> q in out && out[q] == fs[q]
  {
  }

  /** Every spec the loop returns is what its image's spec file holds at the
      end, and the specs come in image order, at most one per image. */
  lemma {:induction false} LoopPersisted(fs: Fs, dir: string, overwrite: bool, gen: (nat, Value) -> Option<(Entries, Entries)>,
                                         now: string, items: seq<Value>)
    ensures var out := Loop(fs, dir, overwrite, gen, now, items);
            out.1.Ok? ==> Persisted(out.0, dir, |items|, out.1.value)
    decreases |items|
  {
    if items != [] && Loop(fs, dir, overwrite, gen, now, items).1.Ok? {
      var n := |items| - 1;
      LoopPersisted(fs, dir, overwrite, gen, now, items[..n]);
      LoopLastFrame(fs, dir, overwrite, gen, now, items);
      LoopLastSpecs(fs, dir, overwrite, gen, now, items);
      var prev := Loop(fs, dir, overwrite, gen, now, items[..n]);
      var out := Loop(fs, dir, overwrite, gen, now, items);
      PersistedSnoc(prev.0, out.0, dir, n, prev.1.value, out.1.value);
    }
  }

  /** Each spec is what its image's spec file holds, and the images are
      below `n` and increasing. */
  predicate Persisted(fs: Fs, dir: string, n: nat, ps: seq<(nat, Value)>) {
    && (forall k | 0 <= k < |ps| :: ps[k].0 < n && Load(fs, SpecFile(dir, ps[k].0)) == Ok(ps[k].1))
    && (forall k, l | 0 <= k < l < |ps| :: ps[k].0 < ps[l].0)
  }

  /** The last image adds at most its own spec, which its file then holds. */
  lemma LoopLastSpecs(fs: Fs, dir: string, overwrite: bool, gen: (nat, Value) -> Option<(Entries, Entries)>,
                      now: string, items: seq<Value>)
    requires items != [] && Loop(fs, dir, overwrite, gen, now, items).1.Ok?
    ensures var n := |items| - 1;
            var prev := Loop(fs, dir, overwrite, gen, now, items[..n]);
            var out := Loop(fs, dir, overwrite, gen, now, items);
            && prev.1.Ok?
            && |prev.1.value| <= |out.1.value| <= |prev.1.value| + 1
            && out.1.value[..|prev.1.value|] == prev.1.value
            && (|out.1.value| > |prev.1.value| ==>
                  out.1.value[|prev.1.value|].0 == n
                  && Load(out.0, SpecFile(dir, n)) == Ok(out.1.value[|prev.1.value|].1))
  {
  }

  lemma PersistedSnoc(fs: Fs, fs': Fs, dir: string, n: nat, ps: seq<(nat, Value)>, ps': seq<(nat, Value)>)
    requires Persisted(fs, dir, n, ps)
    requires forall q :: q in fs && q != SpecFile(dir, n) ==> q in fs' && fs'[q] == fs[q]
    requires |ps| <= |ps'| <= |ps| + 1 && ps'[..|ps|] == ps
    requires |ps'| > |ps| ==> ps'[|ps|].0 == n && Load(fs', SpecFile(dir, n)) == Ok(ps'[|ps|].1)
    ensures Persisted(fs', dir, n + 1, ps')
  {
    forall k | 0 <= k < |ps| ensures ps'[k] == ps[k] && Load(fs', SpecFile(dir, ps[k].0)) == Ok(ps[k].1) {
      assert ps'[k] == ps'[..|ps|][k];
      if SpecFile(dir, ps[k].0) == SpecFile(dir, n) {
        SpecFileInjective(dir, ps[k].0, n);
      }
    }
  }

  /** Without `overwrite`, a readable spec file of one of the images is kept
      as it is and returned as that image's spec. */
  lemma LoopKeepsExisting(fs: Fs, dir: string, gen: (nat, Value) -> Option<(Entries, Entries)>,
                          now: string, items: seq<Value>, i: nat)
    requires i < |items| && Load(fs, SpecFile(dir, i)).Ok?
    requires Loop(fs, dir, false, gen, now, items).1.Ok?
    ensures var out := Loop(fs, dir, false, gen, now, items);
            && (i, Load(fs, SpecFile(dir, i)).value) in out.1.value
            && Load(out.0, SpecFile(dir, i)) == Load(fs, SpecFile(dir, i))
  {
    LoopPrefix(fs, dir, false, gen, now, items, i + 1);
    KeptAt(fs, dir, gen, now, items, i);
    var mid := Loop(fs, dir, false, gen, now, items[..i + 1]).1.value;
    var all := Loop(fs, dir, false, gen, now, items).1.value;
    assert all[|mid| - 1] == mid[|mid| - 1];
    LoopPersisted(fs, dir, false, gen, now, items);
  }

  /** Image `i`'s readable spec file, kept: it is the last spec of the loop
      over the first `i + 1` images. */
  lemma KeptAt(fs: Fs, dir: string, gen: (nat, Value) -> Option<(Entries, Entries)>,
               now: string, items: seq<Value>, i: nat)
    requires i < |items| && Load(fs, SpecFile(dir, i)).Ok?
    requires Loop(fs, dir, false, gen, now, items[..i + 1]).1.Ok?
    ensures var mid := Loop(fs, dir, false, gen, now, items[..i + 1]).1.value;
            mid != [] && mid[|mid| - 1] == (i, Load(fs, SpecFile(dir, i)).value)
  {
    var path := SpecFile(dir, i);
    LoopFrame(fs, dir, false, gen, now, items[..i]);
    assert path !in SpecFiles(dir, i) by {
      if path in SpecFiles(dir, i) {
        var j :| 0 <= j < i && path == SpecFile(dir, j);
        SpecFileInjective(dir, i, j);
      }
    }
    LoopSnocOk(fs, dir, false, gen, now, items, i);
    LoopSnoc(fs, dir, false, gen, now, items, i);
    var prev := Loop(fs, dir, false, gen, now, items[..i]);
    assert path in prev.0 && prev.0[path] == fs[path];
    StepKept(prev.0, dir, gen, now, i, items[i]);
  }

  /** The loop so far has not raised if one more image does not make it. */
  lemma LoopSnocOk(fs: Fs, dir: string, overwrite: bool, gen: (nat, Value) -> Option<(Entries, Entries)>,
                   now: string, items: seq<Value>, i: nat)
    requires i < |items| && Loop(fs, dir, overwrite, gen, now, items[..i + 1]).1.Ok?
    ensures Loop(fs, dir, overwrite, gen, now, items[..i]).1.Ok?
  {
    assert items[..i + 1][..i] == items[..i];
  }

  /** Without `overwrite`, a readable spec file is what the image gives. */
  lemma StepKept(fs: Fs, dir: string, gen: (nat, Value) -> Option<(Entries, Entries)>,
                 now: string, i: nat, item: Value)
    requires Load(fs, SpecFile(dir, i)).Ok?
    ensures Step(fs, dir, false, gen, now, i, item) == (fs, Ok(Some(Load(fs, SpecFile(dir, i)).value)))
  {
  }

  /** The loop's specs so far are a prefix of its final specs. */
  lemma {:induction false} LoopPrefix(fs: Fs, dir: string, overwrite: bool, gen: (nat, Value) -> Option<(Entries, Entries)>,
                                      now: string, items: seq<Value>, m: nat)
    requires m <= |items| && Loop(fs, dir, overwrite, gen, now, items).1.Ok?
    ensures Loop(fs, dir, overwrite, gen, now, items[..m]).1.Ok?
    ensures Loop(fs, dir, overwrite, gen, now, items[..m]).1.value <= Loop(fs, dir, overwrite, gen, now, items).1.value
    decreases |items| - m
  {
    if m == |items| {
      assert items[..m] == items;
    } else {
      LoopPrefix(fs, dir, overwrite, gen, now, items, m + 1);
      LoopSnoc(fs, dir, overwrite, gen, now, items, m);
      if Loop(fs, dir, overwrite, gen, now, items[..m]).1.Err? {
        LoopStops(fs, dir, overwrite, gen, now, items, m);
      }
    }
  }
}
