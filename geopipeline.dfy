/**
 * The geometry stage's entry points around the planner: `solve_spec`, which
 * never raises and reports failures in its result dict; `solve_spec_file`;
 * `solve_in_problem_dir`, which solves `spec.json` and saves
 * `geo_result.json`; and `solve_all_specs_in_problem_dir`, which does the
 * same for every `spec_<n>.json` of a problem directory.
 */
module GeoPipeline {
  import opened Outcomes
  import opened PyText
  import opened Numerics
  import opened PyValue
  import opened Geom
  import opened Templates
  import opened Planner

  /** A solved spec: its points (scaled when the spec has a box), the scale,
      and the unscaled points when a box was applied. */
  datatype Solution = Solution(points: PointMap, scale: real, original: Option<PointMap>)

  /** How points go into a result dict: as the numpy arrays the solver
      returns, or converted with `tolist()`. */
  datatype Encoding = AsArrays | AsLists

  /** `v.get(k)` on a dict; None for anything else. */
  function Field(v: Value, k: string): Option<Value> {
    if v.Dict? then Lookup(v.entries, k) else None
  }

  function EncodePoints(pm: PointMap, enc: Encoding): (v: Value)
    ensures v.Dict? && |v.entries| == |pm|
    ensures forall i :: 0 <= i < |pm| ==> v.entries[i].0 == pm[i].0
  {
    match enc
    case AsArrays => PointsValue(pm)
    case AsLists => Dict(seq(|pm|, i requires 0 <= i < |pm| => (pm[i].0, ToListIfArray(AsArray(pm[i].1)))))
  }

  /** `json.dump` takes the encoded points exactly when they were converted
      to lists, or there are none. */
  lemma EncodingSerialisable(pm: PointMap, enc: Encoding)
    ensures Serialisable(EncodePoints(pm, enc)) <==> (enc == AsLists || pm == [])
  {
    var v := EncodePoints(pm, enc);
    if enc == AsArrays && pm != [] {
      assert v.entries[0].1 == AsArray(pm[0].1);
    }
    if enc == AsLists {
      forall i | 0 <= i < |pm|
        ensures Serialisable(v.entries[i].1)
      {
        var l := v.entries[i].1;
        assert l == ToListIfArray(AsArray(pm[i].1));
        assert forall j | 0 <= j < |l.items| :: l.items[j].Num?;
      }
    }
  }

  lemma EncodingSerialisableOpt(pm: Option<PointMap>, enc: Encoding)
    ensures pm.Some? ==> (Serialisable(EncodePoints(pm.value, enc)) <==> (enc == AsLists || pm.value == []))
  {
    if pm.Some? {
      EncodingSerialisable(pm.value, enc);
    }
  }

  // ---------------------------------------------------------- solve_spec

  /** Planning, then scaling when the spec has a box. */
  function SolveCore(h: Host, spec: Value): (r: Result<Solution>)
    ensures PlanAndSolve(h, spec).Err? ==> r == Err(PlanAndSolve(h, spec).error)
    ensures r.Ok? ==> PlanAndSolve(h, spec).Ok? && |r.value.points| >= 4
    ensures r.Ok? && !HasField(spec, "box") ==> r.value == Solution(PlanAndSolve(h, spec).value, 1.0, None)
    ensures r.Ok? && HasField(spec, "box") ==>
              && r.value.original == Some(PlanAndSolve(h, spec).value)
              && ScaleIntoBox(PlanAndSolve(h, spec).value, Lookup(spec.entries, "box").value) == Ok((r.value.points, r.value.scale))
    ensures HasField(spec, "box") && PlanAndSolve(h, spec).Ok?
            && ScaleIntoBox(PlanAndSolve(h, spec).value, Lookup(spec.entries, "box").value).Err?
            ==> r == Err(ScaleIntoBox(PlanAndSolve(h, spec).value, Lookup(spec.entries, "box").value).error)
  {
    var points :- PlanAndSolve(h, spec);
    if HasField(spec, "box") then
      var (scaled, s) :- ScaleIntoBox(points, Lookup(spec.entries, "box").value);
      Ok(Solution(scaled, s, Some(points)))
    else
      Ok(Solution(points, 1.0, None))
  }

  /** The dict `solve_spec` returns on failure. */
  function ErrorDict(msg: string): (v: Value)
    ensures v.Dict? && Field(v, "status") == Some(Str("error")) && Field(v, "error") == Some(Str(msg))
    ensures Field(v, "points") == Some(Dict([])) && Field(v, "scale_factor") == Some(Num(1.0))
    ensures Field(v, "original_points") == None
  {
    var t3 := Prepend("scale_factor", Num(1.0), []);
    var t2 := Prepend("points", Dict([]), t3);
    var t1 := Prepend("error", Str(msg), t2);
    LookupPrepend("scale_factor", Num(1.0), []);
    LookupPrepend("points", Dict([]), t3);
    LookupPrepend("error", Str(msg), t2);
    LookupPrepend("status", Str("error"), t1);
    Dict(Prepend("status", Str("error"), t1))
  }

  lemma ErrorDictSerialisable(msg: string)
    ensures Serialisable(ErrorDict(msg))
  {
    var t3 := Prepend("scale_factor", Num(1.0), []);
    var t2 := Prepend("points", Dict([]), t3);
    var t1 := Prepend("error", Str(msg), t2);
    SerialisablePrepend("scale_factor", Num(1.0), []);
    SerialisablePrepend("points", Dict([]), t3);
    SerialisablePrepend("error", Str(msg), t2);
    SerialisablePrepend("status", Str("error"), t1);
  }

  /** The dict `solve_spec` returns on success. */
  function SolvedDict(sol: Solution, enc: Encoding): (v: Value)
    ensures v.Dict? && Field(v, "status") == Some(Str("solved"))
    ensures Field(v, "points") == Some(EncodePoints(sol.points, enc)) && Field(v, "scale_factor") == Some(Num(sol.scale))
    ensures Field(v, "original_points") == (if sol.original.Some? then Some(EncodePoints(sol.original.value, enc)) else None)
  {
    var t3 := SolvedTail(sol, enc);
    var t2 := Prepend("scale_factor", Num(sol.scale), t3);
    var t1 := Prepend("points", EncodePoints(sol.points, enc), t2);
    LookupPrepend("scale_factor", Num(sol.scale), t3);
    LookupPrepend("points", EncodePoints(sol.points, enc), t2);
    LookupPrepend("status", Str("solved"), t1);
    Dict(Prepend("status", Str("solved"), t1))
  }

  /** The optional last entry of the success dict. */
  function SolvedTail(sol: Solution, enc: Encoding): (t: Entries)
    ensures Lookup(t, "original_points") == (if sol.original.Some? then Some(EncodePoints(sol.original.value, enc)) else None)
    ensures Lookup(t, "status") == None && Lookup(t, "points") == None && Lookup(t, "scale_factor") == None
  {
    if sol.original.Some? then
      LookupPrepend("original_points", EncodePoints(sol.original.value, enc), []);
      Prepend("original_points", EncodePoints(sol.original.value, enc), [])
    else []
  }

  lemma SolvedDictSerialisable(sol: Solution, enc: Encoding)
    ensures Serialisable(SolvedDict(sol, enc)) <==>
            (enc == AsLists || (sol.points == [] && (sol.original.Some? ==> sol.original.value == [])))
  {
    EncodingSerialisable(sol.points, enc);
    EncodingSerialisableOpt(sol.original, enc);
    var t3 := SolvedTail(sol, enc);
    var t2 := Prepend("scale_factor", Num(sol.scale), t3);
    var t1 := Prepend("points", EncodePoints(sol.points, enc), t2);
    if sol.original.Some? {
      SerialisablePrepend("original_points", EncodePoints(sol.original.value, enc), []);
    }
    SerialisablePrepend("scale_factor", Num(sol.scale), t3);
    SerialisablePrepend("points", EncodePoints(sol.points, enc), t2);
    SerialisablePrepend("status", Str("solved"), t1);
  }

  /** The result dict for a solve attempt. */
  function Report(r: Result<Solution>, enc: Encoding): (v: Value)
    ensures v.Dict? && Field(v, "status") == Some(Str(if r.Ok? then "solved" else "error"))
    ensures r.Err? ==> && Field(v, "error") == Some(Str(Message(r.error)))
                       && Field(v, "points") == Some(Dict([]))
                       && Field(v, "scale_factor") == Some(Num(1.0))
    ensures r.Ok? ==> && Field(v, "points") == Some(EncodePoints(r.value.points, enc))
                      && Field(v, "scale_factor") == Some(Num(r.value.scale))
                      && Field(v, "original_points") == (if r.value.original.Some? then Some(EncodePoints(r.value.original.value, enc)) else None)
    ensures r.Err? || enc == AsLists ==> Serialisable(v)
    ensures r.Ok? && enc == AsArrays && r.value.points != [] ==> !Serialisable(v)
  {
    match r
    case Err(e) =>
      ErrorDictSerialisable(Message(e));
      ErrorDict(Message(e))
    case Ok(sol) =>
      SolvedDictSerialisable(sol, enc);
      SolvedDict(sol, enc)
  }

  /** `solve_spec(spec)`: it never raises; a failure is a status "error"
      result with the exception text, no points and scale 1.0. */
  function SolveSpec(h: Host, spec: Value): (r: Value)
    ensures Field(r, "status") == Some(Str(if SolveCore(h, spec).Ok? then "solved" else "error"))
  {
    Report(SolveCore(h, spec), AsArrays)
  }

  /** What `solve_spec` reports, case by case: a planning failure, a scaling
      failure, a plain solution with scale 1.0, and a scaled one that keeps
      the unscaled points. */
  lemma SolveSpecCases(h: Host, spec: Value)
    ensures PlanAndSolve(h, spec).Err? ==> SolveSpec(h, spec) == ErrorDict(Message(PlanAndSolve(h, spec).error))
    ensures PlanAndSolve(h, spec).Ok? && !HasField(spec, "box") ==>
              && Field(SolveSpec(h, spec), "points") == Some(PointsValue(PlanAndSolve(h, spec).value))
              && Field(SolveSpec(h, spec), "scale_factor") == Some(Num(1.0))
              && Field(SolveSpec(h, spec), "original_points") == None
    ensures PlanAndSolve(h, spec).Ok? && HasField(spec, "box") ==>
              var scaled := ScaleIntoBox(PlanAndSolve(h, spec).value, Lookup(spec.entries, "box").value);
              && (scaled.Err? ==> SolveSpec(h, spec) == ErrorDict(Message(scaled.error)))
              && (scaled.Ok? ==> && Field(SolveSpec(h, spec), "points") == Some(PointsValue(scaled.value.0))
                                 && Field(SolveSpec(h, spec), "scale_factor") == Some(Num(scaled.value.1))
                                 && Field(SolveSpec(h, spec), "original_points") == Some(PointsValue(PlanAndSolve(h, spec).value)))
  {
  }

  /** `solve_spec_file(path)`: only a load failure is caught here, with the path in the message. */
  function SolveSpecFile(h: Host, fs: Fs, path: string): (r: Value)
    ensures path !in fs ==> r == ErrorDict("Failed to load or solve spec from " + path + ": " + Message(FileNotFoundError(path)))
    ensures Load(fs, path).Ok? ==> r == SolveSpec(h, Load(fs, path).value)
  {
    match Load(fs, path)
    case Err(e) => ErrorDict("Failed to load or solve spec from " + path + ": " + Message(e))
    case Ok(spec) => SolveSpec(h, spec)
  }

  /** A spec written with `json.dump` and solved from its file solves as the spec itself. */
  lemma SolveSpecFileRoundTrip(h: Host, fs: Fs, path: string, spec: Value)
    requires Serialisable(spec)
    ensures SolveSpecFile(h, Dump(fs, path, spec).0, path) == SolveSpec(h, spec)
  {
    DumpLoad(fs, path, spec);
  }

  // ---------------------------------------------------------- solve_in_problem_dir

  function SpecPath(dir: string): string { Join(dir, "spec.json") }
  function ResultPath(dir: string): string { Join(dir, "geo_result.json") }

  function NotFound(dir: string): (v: Value)
    ensures Field(v, "status") == Some(Str("error")) && Field(v, "spec_path") == Some(Str(SpecPath(dir)))
  {
    var t2 := Prepend("spec_path", Str(SpecPath(dir)), []);
    var t1 := Prepend("error", Str("spec.json not found in " + dir), t2);
    LookupPrepend("spec_path", Str(SpecPath(dir)), []);
    LookupPrepend("error", Str("spec.json not found in " + dir), t2);
    LookupPrepend("status", Str("error"), t1);
    Dict(Prepend("status", Str("error"), t1))
  }

  function Skipped(dir: string, existing: Value): (v: Value)
    ensures Field(v, "status") == Some(Str("skipped")) && Field(v, "existing_result") == Some(existing)
  {
    var t4 := Prepend("existing_result", existing, []);
    var t3 := Prepend("result_path", Str(ResultPath(dir)), t4);
    var t2 := Prepend("spec_path", Str(SpecPath(dir)), t3);
    var t1 := Prepend("reason", Str("Result already exists and overwrite=False"), t2);
    LookupPrepend("existing_result", existing, []);
    LookupPrepend("result_path", Str(ResultPath(dir)), t4);
    LookupPrepend("spec_path", Str(SpecPath(dir)), t3);
    LookupPrepend("reason", Str("Result already exists and overwrite=False"), t2);
    LookupPrepend("status", Str("skipped"), t1);
    Dict(Prepend("status", Str("skipped"), t1))
  }

  /** A readable result exists and must not be overwritten. */
  predicate Skips(fs: Fs, dir: string, overwrite: bool) {
    !overwrite && Load(fs, ResultPath(dir)).Ok?
  }

  /** The result dict before it is saved: a load or solve failure is caught. */
  function Outcome(h: Host, fs: Fs, dir: string, enc: Encoding): (v: Value)
    ensures v.Dict? && Field(v, "status").Some?
    ensures Serialisable(v) <==> (Load(fs, SpecPath(dir)).Err? || SolveCore(h, Load(fs, SpecPath(dir)).value).Err? || enc == AsLists)
    ensures Load(fs, SpecPath(dir)).Err? ==> v == ErrorDict(Message(Load(fs, SpecPath(dir)).error))
    ensures Load(fs, SpecPath(dir)).Ok? ==> v == Report(SolveCore(h, Load(fs, SpecPath(dir)).value), enc)
  {
    match Load(fs, SpecPath(dir))
    case Err(e) => ErrorDict(Message(e))
    case Ok(spec) => Report(SolveCore(h, spec), enc)
  }

  /** The body of `solve_in_problem_dir`, with the points written as `enc` says. */
  method SolveAndSave(h: Host, fs: Fs, dir: string, overwrite: bool, enc: Encoding) returns (fs': Fs, result: Value)
    ensures SpecPath(dir) !in fs ==> fs' == fs && result == NotFound(dir)
    ensures SpecPath(dir) in fs && Skips(fs, dir, overwrite) ==>
              fs' == fs && result == Skipped(dir, Load(fs, ResultPath(dir)).value)
    ensures SpecPath(dir) in fs && !Skips(fs, dir, overwrite) ==>
              var outcome := Outcome(h, fs, dir, enc);
              && fs' == Dump(fs, ResultPath(dir), outcome).0
              && Field(result, "spec_path") == Some(Str(SpecPath(dir)))
              && (Serialisable(outcome) ==> && Field(result, "status") == Field(outcome, "status")
                                            && Field(result, "result_path") == Some(Str(ResultPath(dir))))
              && (!Serialisable(outcome) ==> && Field(result, "status") == Some(Str("error"))
                                             && Field(result, "error") == Some(Str("Failed to save result: " + Message(TypeError))))
  {
    var specPath := SpecPath(dir);
    var resultPath := ResultPath(dir);
    fs' := fs;
    if specPath !in fs {
      result := NotFound(dir);
      return;
    }
    if !overwrite && resultPath in fs {
      var existing := Load(fs, resultPath);
      if existing.Ok? {
        result := Skipped(dir, existing.value);
        return;
      }
    }
    var outcome := Outcome(h, fs, dir, enc);
    result := outcome;
    var dumped := Dump(fs, resultPath, result);
    fs' := dumped.0;
    if dumped.1.Ok? {
      result := Dict(Put(result.entries, "result_path", Str(resultPath)));
    } else {
      result := Dict(Put(result.entries, "status", Str("error")));
      result := Dict(Put(result.entries, "error", Str("Failed to save result: " + Message(dumped.1.error))));
    }
    result := Dict(Put(result.entries, "spec_path", Str(specPath)));
    SaveFields(outcome.entries, dumped.1.Ok?, "Failed to save result: " + Message(TypeError), resultPath, specPath);
  }

  /** The keys `solve_in_problem_dir` sets after saving: `result_path` when the
      dump succeeded, `status` and `error` when it failed, `spec_path` always. */
  lemma SaveFields(e: Entries, ok: bool, msg: string, resultPath: string, specPath: string)
    ensures var e1 := if ok then Put(e, "result_path", Str(resultPath))
                      else Put(Put(e, "status", Str("error")), "error", Str(msg));
            var e2 := Put(e1, "spec_path", Str(specPath));
            && Lookup(e2, "spec_path") == Some(Str(specPath))
            && (ok ==> Lookup(e2, "status") == Lookup(e, "status") && Lookup(e2, "result_path") == Some(Str(resultPath)))
            && (!ok ==> Lookup(e2, "status") == Some(Str("error")) && Lookup(e2, "error") == Some(Str(msg)))
  {
    var e1 := if ok then Put(e, "result_path", Str(resultPath))
              else Put(Put(e, "status", Str("error")), "error", Str(msg));
    LookupPut(e1, "spec_path", Str(specPath), "spec_path");
    LookupPut(e1, "spec_path", Str(specPath), "status");
    if ok {
      LookupPut(e1, "spec_path", Str(specPath), "result_path");
      LookupPut(e, "result_path", Str(resultPath), "status");
      LookupPut(e, "result_path", Str(resultPath), "result_path");
    } else {
      LookupPut(e1, "spec_path", Str(specPath), "error");
      LookupPut(e, "status", Str("error"), "status");
      LookupPut(Put(e, "status", Str("error")), "error", Str(msg), "status");
      LookupPut(Put(e, "status", Str("error")), "error", Str(msg), "error");
    }
  }

  /** `solve_in_problem_dir` as written: the points stay numpy arrays, so
      `json.dump` refuses every solved result after truncating the file. A
      solved spec is reported as status "error" and leaves an unreadable
      `geo_result.json`; only failures are saved. */
  method SolveInProblemDir(h: Host, fs: Fs, dir: string, overwrite: bool) returns (fs': Fs, result: Value)
    ensures forall p :: p in fs && p != ResultPath(dir) ==> p in fs' && fs'[p] == fs[p]
    ensures SpecPath(dir) !in fs ==> fs' == fs && Field(result, "status") == Some(Str("error"))
    ensures SpecPath(dir) in fs && Skips(fs, dir, overwrite) ==> fs' == fs && Field(result, "status") == Some(Str("skipped"))
    ensures SpecPath(dir) in fs && !Skips(fs, dir, overwrite) && Load(fs, SpecPath(dir)).Ok?
            && SolveCore(h, Load(fs, SpecPath(dir)).value).Ok? ==>
              && Field(result, "status") == Some(Str("error"))
              && ResultPath(dir) in fs'
              && fs'[ResultPath(dir)] == Garbled
              && Load(fs', ResultPath(dir)) == Err(JsonDecodeError)
    ensures SpecPath(dir) in fs && !Skips(fs, dir, overwrite)
            && (Load(fs, SpecPath(dir)).Err? || SolveCore(h, Load(fs, SpecPath(dir)).value).Err?) ==>
              && Field(result, "status") == Some(Str("error"))
              && ResultPath(dir) in fs'
              && fs'[ResultPath(dir)] == Doc(Outcome(h, fs, dir, AsArrays))
  {
    fs', result := SolveAndSave(h, fs, dir, overwrite, AsArrays);
    if SpecPath(dir) in fs && !Skips(fs, dir, overwrite) {
      var outcome := Outcome(h, fs, dir, AsArrays);
      var spec := Load(fs, SpecPath(dir));
      if spec.Ok? && SolveCore(h, spec.value).Ok? {
        assert !Serialisable(outcome);
      } else if spec.Ok? {
        assert outcome == Report(SolveCore(h, spec.value), AsArrays);
      }
    }
  }

  /** `solve_in_problem_dir` with the points converted by `tolist()`, as
      `solve_all_specs_in_problem_dir` already does: a solved spec is saved
      and reads back as the reported solution. */
  method SolveInProblemDirCorrected(h: Host, fs: Fs, dir: string, overwrite: bool) returns (fs': Fs, result: Value)
    ensures forall p :: p in fs && p != ResultPath(dir) ==> p in fs' && fs'[p] == fs[p]
    ensures SpecPath(dir) !in fs ==> fs' == fs && Field(result, "status") == Some(Str("error"))
    ensures SpecPath(dir) in fs && Skips(fs, dir, overwrite) ==> fs' == fs && Field(result, "status") == Some(Str("skipped"))
    ensures SpecPath(dir) in fs && !Skips(fs, dir, overwrite) ==>
              var solved := if Load(fs, SpecPath(dir)).Ok? then SolveCore(h, Load(fs, SpecPath(dir)).value) else Err(TypeError);
              && Load(fs', ResultPath(dir)) == Ok(Outcome(h, fs, dir, AsLists))
              && Field(result, "result_path") == Some(Str(ResultPath(dir)))
              && (Load(fs, SpecPath(dir)).Ok? && solved.Ok? ==>
                    && Field(result, "status") == Some(Str("solved"))
                    && Outcome(h, fs, dir, AsLists) == Report(solved, AsLists))
  {
    fs', result := SolveAndSave(h, fs, dir, overwrite, AsLists);
  }

  // ---------------------------------------------------------- solve_all_specs_in_problem_dir

  /** A path `<dir>/spec_<m>.json` that the pattern `spec_*.json` matches. */
  predicate IsSpecPath(dir: string, p: string) {
    && |p| >= |dir| + 11
    && p[..|dir| + 6] == dir + "/spec_"
    && p[|p| - 5..] == ".json"
    && forall i | |dir| + 6 <= i < |p| - 5 :: p[i] != '/'
  }

  /** Strict lexicographic order on strings, as `sorted` compares them. */
  predicate StrLess(a: string, b: string) decreases |a| {
    if a == [] then b != []
    else b != [] && (a[0] < b[0] || (a[0] == b[0] && StrLess(a[1..], b[1..])))
  }

  /** `sorted(glob(dir + "/spec_*.json"))`: every matching file once, in order. */
  ghost predicate IsListing(fs: Fs, dir: string, listing: seq<string>) {
    && (forall i, j :: 0 <= i < j < |listing| ==> StrLess(listing[i], listing[j]))
    && (forall p :: p in listing <==> p in fs && IsSpecPath(dir, p))
  }

  /** `Path(p).stem`: the file name without `.json`. */
  function Stem(dir: string, p: string): string
    requires IsSpecPath(dir, p)
  {
    p[|dir| + 1..|p| - 5]
  }

  /** `int(stem.split('_')[1])`. */
  function ImageIndex(dir: string, p: string): Result<int>
    requires IsSpecPath(dir, p)
  {
    var fields := SplitOn(Stem(dir, p), '_');
    if |fields| < 2 then Err(IndexError)
    else match ParseInt(fields[1])
      case None => Err(ValueError("invalid literal for int() with base 10: '" + fields[1] + "'"))
      case Some(n) => Ok(n)
  }

  function IndexedResultPath(dir: string, n: int): string {
    Join(dir, "geo_result_" + IntToString(n) + ".json")
  }

  ghost predicate IsResultPath(dir: string, q: string) {
    exists n :: q == IndexedResultPath(dir, n)
  }

  /** The loop writes result files only, never a spec file. */
  lemma SpecPathNotResultPath(dir: string, q: string)
    requires IsSpecPath(dir, q)
    ensures !IsResultPath(dir, q)
  {
    assert q[|dir| + 1] == (dir + "/spec_")[|dir| + 1] == 's';
    forall n
      ensures q != IndexedResultPath(dir, n)
    {
      var r := IndexedResultPath(dir, n);
      assert r[|dir| + 1] == 'g';
    }
  }

  function NoSpecs(dir: string): Value {
    Dict([("status", Str("error")), ("error", Str("No spec_*.json files found in " + dir))])
  }

  /** Every entry names its spec file, its result file and its index. */
  predicate Names(entry: Value, specPath: string, resultPath: string, n: int) {
    && Field(entry, "spec_path") == Some(Str(specPath))
    && Field(entry, "result_path") == Some(Str(resultPath))
    && Field(entry, "image_index") == Some(Num(n as real))
    && (Field(entry, "status") == Some(Str("solved")) || Field(entry, "status") == Some(Str("skipped"))
        || Field(entry, "status") == Some(Str("error")))
  }

  /** The entry names spec file `p`, its index and the result file for that index. */
  predicate EntryFor(entry: Value, dir: string, p: string)
    requires IsSpecPath(dir, p)
  {
    && ImageIndex(dir, p).Ok?
    && Names(entry, p, IndexedResultPath(dir, ImageIndex(dir, p).value), ImageIndex(dir, p).value)
  }

  function SkippedEntry(specPath: string, resultPath: string, n: int, existing: Value): (v: Value)
    ensures Names(v, specPath, resultPath, n) && Field(v, "status") == Some(Str("skipped"))
    ensures Field(v, "existing_result") == Some(existing)
  {
    var t5 := Prepend("existing_result", existing, []);
    var t4 := Prepend("image_index", Num(n as real), t5);
    var t3 := Prepend("result_path", Str(resultPath), t4);
    var t2 := Prepend("spec_path", Str(specPath), t3);
    var t1 := Prepend("reason", Str("Result already exists and overwrite=False"), t2);
    LookupPrepend("existing_result", existing, []);
    LookupPrepend("image_index", Num(n as real), t5);
    LookupPrepend("result_path", Str(resultPath), t4);
    LookupPrepend("spec_path", Str(specPath), t3);
    LookupPrepend("reason", Str("Result already exists and overwrite=False"), t2);
    LookupPrepend("status", Str("skipped"), t1);
    Dict(Prepend("status", Str("skipped"), t1))
  }

  function ErrorEntry(msg: string, specPath: string, resultPath: string, n: int): (v: Value)
    ensures Names(v, specPath, resultPath, n) && Field(v, "status") == Some(Str("error"))
    ensures Field(v, "error") == Some(Str(msg))
  {
    var t4 := Prepend("image_index", Num(n as real), []);
    var t3 := Prepend("result_path", Str(resultPath), t4);
    var t2 := Prepend("spec_path", Str(specPath), t3);
    var t1 := Prepend("error", Str(msg), t2);
    LookupPrepend("image_index", Num(n as real), []);
    LookupPrepend("result_path", Str(resultPath), t4);
    LookupPrepend("spec_path", Str(specPath), t3);
    LookupPrepend("error", Str(msg), t2);
    LookupPrepend("status", Str("error"), t1);
    Dict(Prepend("status", Str("error"), t1))
  }

  /** The saved entry of a solved spec: listed points, the scale, and the box when there is one. */
  function SolvedEntry(points: Value, scale: real, box: Option<Value>, specPath: string, resultPath: string, n: int): (v: Value)
    ensures Names(v, specPath, resultPath, n) && Field(v, "status") == Some(Str("solved"))
    ensures Field(v, "points") == Some(points)
    ensures Field(v, "scale_factor") == Some(Num(if box.Some? then scale else 1.0))
    ensures Field(v, "box") == box
  {
    var t6 := BoxTail(box);
    var t5 := Prepend("scale_factor", Num(if box.Some? then scale else 1.0), t6);
    var t4 := Prepend("points", points, t5);
    var t3 := Prepend("image_index", Num(n as real), t4);
    var t2 := Prepend("result_path", Str(resultPath), t3);
    var t1 := Prepend("spec_path", Str(specPath), t2);
    LookupPrepend("scale_factor", Num(if box.Some? then scale else 1.0), t6);
    LookupPrepend("points", points, t5);
    LookupPrepend("image_index", Num(n as real), t4);
    LookupPrepend("result_path", Str(resultPath), t3);
    LookupPrepend("spec_path", Str(specPath), t2);
    LookupPrepend("status", Str("solved"), t1);
    Dict(Prepend("status", Str("solved"), t1))
  }

  /** The optional last entry of a solved entry. */
  function BoxTail(box: Option<Value>): (t: Entries)
    ensures Lookup(t, "box") == box
    ensures forall k :: k != "box" ==> Lookup(t, k) == None
  {
    if box.Some? then
      LookupPrepend("box", box.value, []);
      Prepend("box", box.value, [])
    else []
  }

  /** Load, solve, save one spec; every failure is an error entry. */
  function Attempt(h: Host, fs: Fs, specPath: string, resultPath: string, n: int): (r: (Fs, Value))
    ensures Names(r.1, specPath, resultPath, n)
    ensures forall q :: q in fs && q != resultPath ==> q in r.0 && r.0[q] == fs[q]
    ensures r.0.Keys <= fs.Keys + {resultPath}
    ensures Field(r.1, "status") == Some(Str("solved")) ==> Load(r.0, resultPath) == Ok(r.1)
  {
    match Load(fs, specPath)
    case Err(e) => (fs, ErrorEntry(Message(e), specPath, resultPath, n))
    case Ok(spec) =>
      match SolveCore(h, spec)
      case Err(e) => (fs, ErrorEntry(Message(e), specPath, resultPath, n))
      case Ok(sol) =>
        var entry := SolvedEntry(EncodePoints(sol.points, AsLists), sol.scale, Field(spec, "box"), specPath, resultPath, n);
        var (fs2, saved) := Dump(fs, resultPath, entry);
        (fs2, if saved.Ok? then entry else ErrorEntry(Message(saved.error), specPath, resultPath, n))
  }

  /** One iteration: a stem that is not `spec_<int>` raises out of the whole loop. */
  function Step(h: Host, fs: Fs, dir: string, overwrite: bool, p: string): (r: (Fs, Result<Value>))
    requires IsSpecPath(dir, p)
    ensures r.1.Err? <==> ImageIndex(dir, p).Err?
    ensures r.1.Err? ==> r == (fs, Err(ImageIndex(dir, p).error))
    ensures r.1.Ok? ==> EntryFor(r.1.value, dir, p)
    ensures r.1.Ok? ==> forall q :: q in fs && q != IndexedResultPath(dir, ImageIndex(dir, p).value) ==> q in r.0 && r.0[q] == fs[q]
    ensures r.1.Ok? ==> r.0.Keys <= fs.Keys + {IndexedResultPath(dir, ImageIndex(dir, p).value)}
  {
    match ImageIndex(dir, p)
    case Err(e) => (fs, Err(e))
    case Ok(n) =>
      var rp := IndexedResultPath(dir, n);
      if !overwrite && Load(fs, rp).Ok? then (fs, Ok(SkippedEntry(p, rp, n, Load(fs, rp).value)))
      else
        var (fs2, entry) := Attempt(h, fs, p, rp, n);
        (fs2, Ok(entry))
  }

  /** The loop over the first `|listing|` spec files. */
  function Process(h: Host, fs: Fs, dir: string, overwrite: bool, listing: seq<string>): (Fs, Result<seq<Value>>)
    requires forall p :: p in listing ==> IsSpecPath(dir, p)
    decreases |listing|
  {
    if listing == [] then (fs, Ok([]))
    else
      var (fs1, r1) := Process(h, fs, dir, overwrite, listing[..|listing| - 1]);
      if r1.Err? then (fs1, r1)
      else
        var (fs2, e) := Step(h, fs1, dir, overwrite, listing[|listing| - 1]);
        if e.Err? then (fs2, Err(e.error)) else (fs2, Ok(r1.value + [e.value]))
  }

  /** Once an iteration raises, later files are not looked at. */
  lemma {:induction false} ProcessStops(h: Host, fs: Fs, dir: string, overwrite: bool, listing: seq<string>, i: nat)
    requires forall p :: p in listing ==> IsSpecPath(dir, p)
    requires i <= |listing| && Process(h, fs, dir, overwrite, listing[..i]).1.Err?
    ensures Process(h, fs, dir, overwrite, listing) == Process(h, fs, dir, overwrite, listing[..i])
    decreases |listing| - i
  {
    if i < |listing| {
      var next := listing[..i + 1];
      assert next[..|next| - 1] == listing[..i];
      ProcessStops(h, fs, dir, overwrite, listing, i + 1);
    } else {
      assert listing[..i] == listing;
    }
  }

  /** `solve_all_specs_in_problem_dir(dir, overwrite)`, given the sorted glob
      result: one error entry when there are no spec files; otherwise the
      loop, which ends early only when a stem is not an integer. */
  method SolveAllSpecsInProblemDir(h: Host, fs: Fs, dir: string, overwrite: bool, listing: seq<string>)
    returns (fs': Fs, r: Result<seq<Value>>)
    requires IsListing(fs, dir, listing)
    ensures listing == [] ==> fs' == fs && r == Ok([NoSpecs(dir)])
    ensures listing != [] ==> (fs', r) == Process(h, fs, dir, overwrite, listing)
  {
    if listing == [] {
      return fs, Ok([NoSpecs(dir)]);
    }
    assert forall p :: p in listing ==> IsSpecPath(dir, p);
    fs' := fs;
    var results: seq<Value> := [];
    for i := 0 to |listing|
      invariant (fs', Ok(results)) == Process(h, fs, dir, overwrite, listing[..i])
    {
      var specPath := listing[i];
      ProcessSnoc(h, fs, dir, overwrite, listing, i);
      var index := ImageIndex(dir, specPath);
      if index.Err? {
        ProcessStops(h, fs, dir, overwrite, listing, i + 1);
        return fs', Err(index.error);
      }
      var n := index.value;
      var resultPath := IndexedResultPath(dir, n);
      if !overwrite && resultPath in fs' {
        var existing := Load(fs', resultPath);
        if existing.Ok? {
          results := results + [SkippedEntry(specPath, resultPath, n, existing.value)];
          continue;
        }
      }
      var attempt := Attempt(h, fs', specPath, resultPath, n);
      fs', results := attempt.0, results + [attempt.1];
    }
    assert listing[..|listing|] == listing;
    r := Ok(results);
  }

  /** One more file: the loop so far, then one `Step` unless it already raised. */
  lemma ProcessSnoc(h: Host, fs: Fs, dir: string, overwrite: bool, listing: seq<string>, i: nat)
    requires forall p :: p in listing ==> IsSpecPath(dir, p)
    requires i < |listing|
    ensures var prev := Process(h, fs, dir, overwrite, listing[..i]);
            prev.1.Ok? ==>
              var step := Step(h, prev.0, dir, overwrite, listing[i]);
              Process(h, fs, dir, overwrite, listing[..i + 1])
                == (step.0, if step.1.Err? then Err(step.1.error) else Ok(prev.1.value + [step.1.value]))
  {
    assert listing[..i + 1][..i] == listing[..i];
  }

  /** The entries follow the listing: one per spec file, in sorted order, each
      naming its file and the index parsed from its stem. */
  lemma {:induction false} ProcessEntries(h: Host, fs: Fs, dir: string, overwrite: bool, listing: seq<string>)
    requires forall p :: p in listing ==> IsSpecPath(dir, p)
    requires Process(h, fs, dir, overwrite, listing).1.Ok?
    ensures var entries := Process(h, fs, dir, overwrite, listing).1.value;
            && |entries| == |listing|
            && forall i :: 0 <= i < |listing| ==> EntryFor(entries[i], dir, listing[i])
    decreases |listing|
  {
    if listing != [] {
      var init := listing[..|listing| - 1];
      var (fs1, r1) := Process(h, fs, dir, overwrite, init);
      ProcessEntries(h, fs, dir, overwrite, init);
      var (fs2, e) := Step(h, fs1, dir, overwrite, listing[|listing| - 1]);
      EntriesSnoc(dir, listing, r1.value, e.value);
    }
  }

  lemma EntriesSnoc(dir: string, listing: seq<string>, prev: seq<Value>, e: Value)
    requires forall p :: p in listing ==> IsSpecPath(dir, p)
    requires |prev| + 1 == |listing|
    requires forall i :: 0 <= i < |prev| ==> EntryFor(prev[i], dir, listing[i])
    requires EntryFor(e, dir, listing[|prev|])
    ensures forall i :: 0 <= i < |listing| ==> EntryFor((prev + [e])[i], dir, listing[i])
  {
  }

  /** A spec file whose stem has no integer after `spec_`. */
  predicate BadStem(dir: string, p: string) {
    IsSpecPath(dir, p) && ImageIndex(dir, p).Err?
  }

  /** The loop raises exactly when some spec file's stem has no integer after `spec_`. */
  lemma {:induction false} ProcessFails(h: Host, fs: Fs, dir: string, overwrite: bool, listing: seq<string>)
    requires forall p :: p in listing ==> IsSpecPath(dir, p)
    ensures Process(h, fs, dir, overwrite, listing).1.Err? <==> exists i :: 0 <= i < |listing| && BadStem(dir, listing[i])
    decreases |listing|
  {
    if listing != [] {
      var init := listing[..|listing| - 1];
      ProcessFails(h, fs, dir, overwrite, init);
      ProcessLastFails(h, fs, dir, overwrite, listing);
      ExistsSnoc(listing, init, p => BadStem(dir, p));
    }
  }

  /** The whole loop raises exactly when the loop over all files but the last raises or the last file's stem is bad. */
  lemma ProcessLastFails(h: Host, fs: Fs, dir: string, overwrite: bool, listing: seq<string>)
    requires listing != [] && forall p :: p in listing ==> IsSpecPath(dir, p)
    ensures Process(h, fs, dir, overwrite, listing).1.Err?
            <==> Process(h, fs, dir, overwrite, listing[..|listing| - 1]).1.Err? || BadStem(dir, listing[|listing| - 1])
  {
  }

  /** Some element has a property exactly when some element before the last
      has it or the last has it. */
  lemma ExistsSnoc(xs: seq<string>, init: seq<string>, f: string -> bool)
    requires xs != [] && init == xs[..|xs| - 1]
    ensures (exists i :: 0 <= i < |xs| && f(xs[i]))
            <==> (exists i :: 0 <= i < |init| && f(init[i])) || f(xs[|xs| - 1])
  {
    if exists i :: 0 <= i < |xs| && f(xs[i]) {
      var i :| 0 <= i < |xs| && f(xs[i]);
      if i < |init| {
        assert init[i] == xs[i];
      }
    }
    if exists i :: 0 <= i < |init| && f(init[i]) {
      var i :| 0 <= i < |init| && f(init[i]);
      assert init[i] == xs[i];
    }
  }

  /** Only result files change: every other file, spec files included, is as it was. */
  lemma {:induction false} ProcessFrame(h: Host, fs: Fs, dir: string, overwrite: bool, listing: seq<string>)
    requires forall p :: p in listing ==> IsSpecPath(dir, p)
    ensures var fs' := Process(h, fs, dir, overwrite, listing).0;
            && (forall q :: q in fs && !IsResultPath(dir, q) ==> q in fs' && fs'[q] == fs[q])
            && (forall q :: q in fs' && q !in fs ==> IsResultPath(dir, q))
    decreases |listing|
  {
    if listing != [] {
      var init := listing[..|listing| - 1];
      ProcessFrame(h, fs, dir, overwrite, init);
      var (fs1, r1) := Process(h, fs, dir, overwrite, init);
      if r1.Ok? {
        var p := listing[|listing| - 1];
        var (fs2, e) := Step(h, fs1, dir, overwrite, p);
        if e.Ok? {
          var rp := IndexedResultPath(dir, ImageIndex(dir, p).value);
          assert IsResultPath(dir, rp);
        }
      }
    }
  }
}
