/**
 * Python values as the modelled code sees them: JSON data (None, booleans,
 * numbers, strings, lists and insertion-ordered dicts) plus one-dimensional
 * numpy float arrays, which the geometry code produces and `json.dump`
 * refuses.  Also the conversions the code applies to them (`float(x)`,
 * iteration, `v3(*x)`) and a file system holding JSON documents.
 */
module PyValue {
  import opened Outcomes
  import opened Numerics
  import opened PyText

  datatype Value =
    | Null
    | Bool(b: bool)
    | Num(n: real)
    | Str(s: string)
    | List(items: seq<Value>)
    | Dict(entries: seq<(string, Value)>)
    | Array(elems: seq<real>)

  type Entries = seq<(string, Value)>

  // ---------------------------------------------------------------- dicts

  predicate HasKey(d: Entries, k: string) {
    exists i | 0 <= i < |d| :: d[i].0 == k
  }

  /** `d[k]` on a dict, or None when the key is absent. */
  function Lookup(d: Entries, k: string): Option<Value> {
    if d == [] then None
    else if d[0].0 == k then Some(d[0].1)
    else Lookup(d[1..], k)
  }

  /** A lookup succeeds exactly for a present key, and then yields one of its entries. */
  lemma {:induction false} LookupSpec(d: Entries, k: string)
    ensures Lookup(d, k).Some? <==> HasKey(d, k)
    ensures Lookup(d, k).Some? ==> exists i | 0 <= i < |d| :: d[i] == (k, Lookup(d, k).value)
  {
    if d != [] && d[0].0 != k {
      LookupSpec(d[1..], k);
      if HasKey(d, k) {
        var i :| 0 <= i < |d| && d[i].0 == k;
        assert d[1..][i - 1].0 == k;
      }
      if Lookup(d, k).Some? {
        var j :| 0 <= j < |d[1..]| && d[1..][j] == (k, Lookup(d, k).value);
        assert d[j + 1] == (k, Lookup(d, k).value);
      }
    }
  }

  /** Position of the first entry with key `k`. */
  function IndexOf(d: Entries, k: string): (i: nat)
    requires HasKey(d, k)
    ensures i < |d| && d[i].0 == k
    ensures forall j :: 0 <= j < i ==> d[j].0 != k
    ensures Lookup(d, k) == Some(d[i].1)
  {
    if d[0].0 == k then 0
    else
      assert HasKey(d[1..], k) by {
        var i :| 0 <= i < |d| && d[i].0 == k;
        assert d[1..][i - 1].0 == k;
      }
      1 + IndexOf(d[1..], k)
  }

  /** The entry at `i` is the first with key `k`, so `d[k]` is its value. */
  lemma LookupAt(d: Entries, i: nat, k: string)
    requires i < |d| && d[i].0 == k && forall j :: 0 <= j < i ==> d[j].0 != k
    ensures Lookup(d, k) == Some(d[i].1)
  {
    var j := IndexOf(d, k);
    assert j == i;
  }

  /** A dict display `{k: v, **rest}`: the entry for `k` first, then those of `rest`. */
  function Prepend(k: string, v: Value, rest: Entries): (d: Entries)
    ensures |d| == |rest| + 1 && d[0] == (k, v) && d[1..] == rest
  {
    [(k, v)] + rest
  }

  /** Reading `k` from `{k: v, **rest}` gives `v`; every other key reads from `rest`. */
  lemma LookupPrepend(k: string, v: Value, rest: Entries)
    ensures Lookup(Prepend(k, v, rest), k) == Some(v)
    ensures forall k2 :: k2 != k ==> Lookup(Prepend(k, v, rest), k2) == Lookup(rest, k2)
  {
  }

  lemma SerialisablePrepend(k: string, v: Value, rest: Entries)
    ensures Serialisable(Dict(Prepend(k, v, rest))) <==> Serialisable(v) && Serialisable(Dict(rest))
  {
    var d := Prepend(k, v, rest);
    assert forall i | 0 <= i < |rest| :: d[i + 1] == rest[i];
  }

  /** The keys in insertion order: `list(d.keys())`. */
  function Keys<V>(d: seq<(string, V)>): (ks: seq<string>)
    ensures |ks| == |d| && forall i :: 0 <= i < |d| ==> ks[i] == d[i].0
  {
    if d == [] then [] else [d[0].0] + Keys(d[1..])
  }

  /** `d[k] = v`: an existing key keeps its position, a new key goes last. */
  function Put(d: Entries, k: string, v: Value): (r: Entries)
    ensures HasKey(d, k) ==> |r| == |d| && forall i :: 0 <= i < |d| ==> r[i].0 == d[i].0
    ensures !HasKey(d, k) ==> r == d + [(k, v)]
  {
    if d == [] then [(k, v)]
    else if d[0].0 == k then [(k, v)] + d[1..]
    else
      assert HasKey(d, k) <==> HasKey(d[1..], k) by {
        if HasKey(d, k) {
          var i :| 0 <= i < |d| && d[i].0 == k;
          assert d[1..][i - 1].0 == k;
        }
        if HasKey(d[1..], k) {
          var i :| 0 <= i < |d[1..]| && d[1..][i].0 == k;
          assert d[i + 1].0 == k;
        }
      }
      [d[0]] + Put(d[1..], k, v)
  }

  /** After `d[k] = v`, reading `k` gives `v` and every other key reads as before. */
  lemma {:induction false} LookupPut(d: Entries, k: string, v: Value, k2: string)
    ensures Lookup(Put(d, k, v), k2) == if k2 == k then Some(v) else Lookup(d, k2)
    decreases |d|
  {
    if d != [] && d[0].0 != k {
      LookupPut(d[1..], k, v, k2);
      assert Put(d, k, v)[1..] == Put(d[1..], k, v);
    }
  }

  /** Assigning a key that is present leaves the key order as it was. */
  lemma KeysPutPresent(d: Entries, k: string, v: Value)
    requires HasKey(d, k)
    ensures Keys(Put(d, k, v)) == Keys(d)
  {
  }

  /** Storing the value a key already holds changes nothing. */
  lemma {:induction false} PutSame(d: Entries, k: string, v: Value)
    requires Lookup(d, k) == Some(v)
    ensures Put(d, k, v) == d
    decreases |d|
  {
    if d[0].0 != k {
      PutSame(d[1..], k, v);
    }
  }

  /** `d[k] = v` keeps the existing keys, in order, as a prefix. */
  lemma KeysPut(d: Entries, k: string, v: Value)
    ensures Keys(d) <= Keys(Put(d, k, v))
    ensures k in Keys(Put(d, k, v))
  {
    LookupPut(d, k, v, k);
    LookupSpec(Put(d, k, v), k);
  }

  /** `d.update(e)`: each entry of `e` in turn, as `d[k] = v`. */
  function Update(d: Entries, e: Entries): Entries
    decreases |e|
  {
    if e == [] then d else Update(Put(d, e[0].0, e[0].1), e[1..])
  }

  /** After `d.update(e)` every key of `e` is present, and every other key reads as before. */
  lemma {:induction false} LookupUpdate(d: Entries, e: Entries, k: string)
    ensures HasKey(e, k) ==> Lookup(Update(d, e), k).Some?
    ensures !HasKey(e, k) ==> Lookup(Update(d, e), k) == Lookup(d, k)
    decreases |e|
  {
    if e != [] {
      var d1 := Put(d, e[0].0, e[0].1);
      LookupUpdate(d1, e[1..], k);
      LookupPut(d, e[0].0, e[0].1, k);
      if e[0].0 != k {
        assert HasKey(e, k) <==> HasKey(e[1..], k) by {
          if HasKey(e, k) {
            var i :| 0 <= i < |e| && e[i].0 == k;
            assert e[1..][i - 1].0 == k;
          }
          if HasKey(e[1..], k) {
            var i :| 0 <= i < |e[1..]| && e[1..][i].0 == k;
            assert e[i + 1].0 == k;
          }
        }
      } else {
        LookupUpdateKeeps(d1, e[1..], k);
      }
    }
  }

  /** A key already present stays present through `d.update(e)`. */
  lemma {:induction false} LookupUpdateKeeps(d: Entries, e: Entries, k: string)
    requires Lookup(d, k).Some?
    ensures Lookup(Update(d, e), k).Some?
    decreases |e|
  {
    if e != [] {
      LookupPut(d, e[0].0, e[0].1, k);
      LookupUpdateKeeps(Put(d, e[0].0, e[0].1), e[1..], k);
    }
  }

  /** `d.setdefault(k, v)`: the dict afterwards and the value it returns. */
  function SetDefault(d: Entries, k: string, v: Value): (r: (Entries, Value))
    ensures HasKey(d, k) ==> r.0 == d && Lookup(d, k) == Some(r.1)
    ensures !HasKey(d, k) ==> r.0 == d + [(k, v)] && r.1 == v
  {
    LookupSpec(d, k);
    match Lookup(d, k)
    case Some(existing) => (d, existing)
    case None => (Put(d, k, v), v)
  }

  /** After `d.setdefault(k, v)`, `k` reads as before when it was present and as
      `v` otherwise; every other key reads as before. */
  lemma LookupSetDefault(d: Entries, k: string, v: Value, k2: string)
    ensures Lookup(SetDefault(d, k, v).0, k2)
         == if k2 == k && !HasKey(d, k) then Some(v) else Lookup(d, k2)
  {
    LookupSpec(d, k);
    if !HasKey(d, k) {
      LookupPut(d, k, v, k2);
    }
  }

  /** `d.get(k, default)` on a dict. */
  function GetOr(d: Entries, k: string, default: Value): (r: Value)
    ensures Lookup(d, k).Some? ==> r == Lookup(d, k).value
    ensures Lookup(d, k).None? ==> r == default
  {
    match Lookup(d, k)
    case Some(x) => x
    case None => default
  }

  /** `d.get(k, default)` on a value that must be a dict. */
  function Get(d: Value, k: string, default: Value): (r: Result<Value>)
    ensures r.Err? <==> !d.Dict?
    ensures d.Dict? && HasKey(d.entries, k) ==> Lookup(d.entries, k).Some? && r == Ok(Lookup(d.entries, k).value)
    ensures d.Dict? && !HasKey(d.entries, k) ==> r == Ok(default)
  {
    if !d.Dict? then Err(AttributeError)
    else
      LookupSpec(d.entries, k);
      match Lookup(d.entries, k)
      case Some(x) => Ok(x)
      case None => Ok(default)
  }

  /** `v[k]` with a string key. */
  function Index(v: Value, k: string): (r: Result<Value>)
    ensures v.Dict? && HasKey(v.entries, k) ==> Lookup(v.entries, k).Some? && r == Ok(Lookup(v.entries, k).value)
    ensures v.Dict? && !HasKey(v.entries, k) ==> r == Err(KeyError(k))
    ensures !v.Dict? ==> r.Err?
  {
    match v
    case Dict(d) =>
      LookupSpec(d, k);
      (match Lookup(d, k)
       case Some(x) => Ok(x)
       case None => Err(KeyError(k)))
    case Array(_) => Err(IndexError)
    case _ => Err(TypeError)
  }

  /** `k in v` for a dict. */
  predicate HasField(v: Value, k: string) {
    v.Dict? && Lookup(v.entries, k).Some?
  }

  // ---------------------------------------------------------- conversions

  /** Python truthiness. A numpy array counts as its length here. */
  predicate Truthy(v: Value) {
    match v
    case Null => false
    case Bool(b) => b
    case Num(n) => n != 0.0
    case Str(s) => s != []
    case List(xs) => xs != []
    case Dict(d) => d != []
    case Array(e) => e != []
  }

  /** `str(v)` or an f-string of `v`: strings, None and booleans are spelled
      out; numbers and containers are not rendered. */
  function Show(v: Value): string {
    match v
    case Str(s) => s
    case Null => "None"
    case Bool(b) => if b then "True" else "False"
    case _ => "<value>"
  }

  /** `float(v)`. */
  function ToFloat(h: Host, v: Value): (r: Result<real>)
    ensures v.Num? ==> r == Ok(v.n)
    ensures (v.Null? || v.List? || v.Dict?) ==> r == Err(TypeError)
    ensures v.Str? ==> (r.Ok? <==> h.parseFloat(v.s).Some?)
    ensures v.Str? && r.Ok? ==> h.parseFloat(v.s) == Some(r.value)
    ensures v.Str? && r.Err? ==> r.error == ValueError("could not convert string to float: '" + v.s + "'")
  {
    match v
    case Num(n) => Ok(n)
    case Bool(b) => Ok(if b then 1.0 else 0.0)
    case Str(s) =>
      (match h.parseFloat(s)
       case Some(x) => Ok(x)
       case None => Err(ValueError("could not convert string to float: '" + s + "'")))
    case Array(e) => if |e| == 1 then Ok(e[0]) else Err(TypeError)
    case _ => Err(TypeError)
  }

  /** What `for x in v` visits. */
  function Iterate(v: Value): (r: Result<seq<Value>>)
    ensures v.List? ==> r == Ok(v.items)
    ensures (v.Null? || v.Bool? || v.Num?) ==> r == Err(TypeError)
  {
    match v
    case List(xs) => Ok(xs)
    case Str(s) => Ok(seq(|s|, i requires 0 <= i < |s| => Str([s[i]])))
    case Dict(d) => Ok(seq(|d|, i requires 0 <= i < |d| => Str(d[i].0)))
    case Array(e) => Ok(seq(|e|, i requires 0 <= i < |e| => Num(e[i])))
    case _ => Err(TypeError)
  }

  /** `[float(x) for x in xs]`. */
  function Floats(h: Host, xs: seq<Value>): (r: Result<seq<real>>)
    ensures r.Ok? <==> forall i :: 0 <= i < |xs| ==> ToFloat(h, xs[i]).Ok?
    ensures r.Ok? ==> |r.value| == |xs| && forall i :: 0 <= i < |xs| ==> r.value[i] == ToFloat(h, xs[i]).value
  {
    if xs == [] then Ok([])
    else
      var x :- ToFloat(h, xs[0]);
      var rest := Floats(h, xs[1..]);
      assert forall i :: 1 <= i < |xs| ==> xs[i] == xs[1..][i - 1];
      if rest.Err? then Err(rest.error) else Ok([x] + rest.value)
  }

  /** `[float(c) for c in v]`. */
  function Coords(h: Host, v: Value): (r: Result<seq<real>>)
    ensures v.List? ==> r == Floats(h, v.items)
    ensures v.Array? ==> r == Ok(v.elems)
  {
    var xs :- Iterate(v);
    var r := Floats(h, xs);
    if v.Array? then
      assert r.Ok? && r.value == v.elems;
      r
    else r
  }

  /** `v3(*v)`: two or three coordinates, z defaulting to 0. */
  function V3(h: Host, v: Value): (r: Result<seq<real>>)
    ensures r.Ok? ==> |r.value| == 3
    ensures r.Ok? ==> Iterate(v).Ok? && (|Iterate(v).value| == 2 || |Iterate(v).value| == 3)
    ensures r.Ok? && |Iterate(v).value| == 2 ==> r.value[2] == 0.0
  {
    var xs :- Iterate(v);
    if |xs| != 2 && |xs| != 3 then Err(TypeError)
    else
      var fs :- Floats(h, xs);
      if |xs| == 2 then Ok(fs + [0.0]) else Ok(fs)
  }

  /** `list(v)`. */
  function ToList(v: Value): (r: Result<Value>)
    ensures v.List? ==> r == Ok(v)
    ensures r.Ok? ==> r.value.List?
  {
    var xs :- Iterate(v);
    Ok(List(xs))
  }

  /** `json.dump` accepts the value: no numpy array anywhere inside. */
  predicate Serialisable(v: Value) {
    match v
    case Array(_) => false
    case List(xs) => forall i | 0 <= i < |xs| :: Serialisable(xs[i])
    case Dict(d) => forall i | 0 <= i < |d| :: Serialisable(d[i].1)
    case _ => true
  }

  /** `x.tolist()` for a numpy array, the value itself otherwise. */
  function ToListIfArray(v: Value): (r: Value)
    ensures !r.Array?
  {
    if v.Array? then List(seq(|v.elems|, i requires 0 <= i < |v.elems| => Num(v.elems[i]))) else v
  }

  // ---------------------------------------------------------- file system

  /** A file's contents: a JSON document, or text `json.load` cannot parse
      (what an interrupted `json.dump` leaves behind). */
  datatype File = Doc(value: Value) | Garbled

  type Fs = map<string, File>

  /** `os.path.join(dir, name)` / `Path(dir) / name`. */
  function Join(dir: string, name: string): string {
    dir + "/" + name
  }

  /** `json.load(open(path))`. */
  function Load(fs: Fs, path: string): (r: Result<Value>)
    ensures r.Ok? <==> path in fs && fs[path].Doc?
    ensures r.Ok? ==> r.value == fs[path].value
    ensures path !in fs ==> r == Err(FileNotFoundError(path))
  {
    if path !in fs then Err(FileNotFoundError(path))
    else match fs[path]
      case Doc(v) => Ok(v)
      case Garbled => Err(JsonDecodeError)
  }

  /** `json.dump(v, open(path, "w"))`: the file is truncated first, so a value
      the encoder refuses leaves a partial, unparsable file and raises. */
  function Dump(fs: Fs, path: string, v: Value): (r: (Fs, Result<()>))
    ensures r.0.Keys == fs.Keys + {path}
    ensures forall p :: p in fs && p != path ==> r.0[p] == fs[p]
    ensures Serialisable(v) ==> r.0[path] == Doc(v) && r.1.Ok?
    ensures !Serialisable(v) ==> r.0[path] == Garbled && r.1 == Err(TypeError)
  {
    if Serialisable(v) then (fs[path := Doc(v)], Ok(())) else (fs[path := Garbled], Err(TypeError))
  }

  /** Whatever `Dump` wrote reads back with `Load` exactly when the value was serialisable. */
  lemma DumpLoad(fs: Fs, path: string, v: Value)
    ensures Load(Dump(fs, path, v).0, path) == (if Serialisable(v) then Ok(v) else Err(JsonDecodeError))
  {
  }
}
