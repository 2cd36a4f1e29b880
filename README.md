# Manion geometry and CAS hand-off core, in Dafny

This project models the deterministic core of Manion, a pipeline that turns a
photographed maths problem into a solved geometric figure and an animation
script. The pipeline runs OCR, LLMs, sympy and manim; this model covers only
the code between those calls:

- the planar geometry kernel: orientation, tolerant segment intersection, the
  shoelace area, the counter-clockwise fix-up and box fitting;
- the construction templates and the two planners that dispatch on a spec's
  `type` and fit the solution into the drawing box;
- the spec lifecycle: the default spec and its shape normalisation, the
  draft-to-solved merge, and the "an existing file wins unless overwrite"
  rules for generating, ensuring and solving spec files, including the
  per-problem-directory batch loops;
- the vectoriser arithmetic of the anchor builder: Ramer–Douglas–Peucker
  simplification, spacing de-duplication, candidate path selection with a
  point cap, quantisation, the pixel-to-frame affine map and SVG size parsing;
- the angle-ordering rules and the label-direction resolver of the scene
  runtime;
- the text helpers of the CAS hand-off: code-fence stripping, the
  balanced-`[` scanner, splitting code from the `---CAS-JOBS---` block,
  LaTeX-to-sympy normalisation and placeholder substitution and filling;
- the diagram/list router and the OCR picture pipeline's child filtering,
  crop-box clamp and crop counter.

Python values (dicts with their key order, lists, numbers, strings, numpy
arrays) are the datatype `PyValue.Value`; a dict is a sequence of key/value
pairs in insertion order. The file system is a map from path to document, and
the JSON reading and writing functions pass it along as state. Trigonometry,
square root, `float()` parsing and the other numeric library calls are fields
of a `Numerics.Host` value passed as a parameter, so every property holds for
any such library. Coordinates are `real`; floating-point round-off is not
modelled.

Shared modules: `Outcomes` (the Python exceptions as an error datatype and the
`Result`/`Option` wrappers), `Numerics` (the host library, min/max, `ceil`),
`PyText` (`str.strip`, `split`, `lower`, `int()` and `str()` of integers),
`PyValue` (values, dict lookup and update, truthiness, JSON load and dump over
the file-system map).

## Model

| member | source | states |
|---|---|---|
| Geom.PointOf | apps/d_geo_compute/geom_utils.py:8-9 | `v3` succeeds exactly when the value converts to a 3-vector, and the point carries those three floats |
| Geom.Unit | apps/d_geo_compute/geom_utils.py:12-14 | the unit vector is planar and, scaled by the guarded norm, gives back x and y of the input |
| Geom.UnitNorm | apps/d_geo_compute/geom_utils.py:13 | the guarded norm `norm + 1e-12` is strictly positive, so `unit` never divides by zero |
| Geom.Rotate | apps/d_geo_compute/geom_utils.py:17-20 | the planar rotation by the host's cos/sin; z is kept |
| Geom.RotateIsometry | apps/d_geo_compute/geom_utils.py:17-20 | where the host's cos² + sin² = 1, a rotation keeps the planar length, and its dot product with the original vector is cos times the squared length |
| Geom.OrientAntisymmetric | apps/d_geo_compute/geom_utils.py:23-27 | swapping any two arguments of `orient2d` negates it; a cyclic shift keeps it |
| Geom.OnSegProperties | apps/d_geo_compute/geom_utils.py:30-36 | `on_seg` is symmetric in the segment's endpoints and holds at both endpoints |
| Geom.OnSegBetween | apps/d_geo_compute/geom_utils.py:30-36 | every point `a + t(b-a)` with t in [0,1] passes `on_seg` (the box test needs no collinearity) |
| Geom.SegXSymmetric | apps/d_geo_compute/geom_utils.py:39-54 | `seg_x` does not depend on which segment comes first nor on the order of either segment's endpoints |
| Geom.SegXSharedEndpoint | apps/d_geo_compute/geom_utils.py:39-54 | two segments sharing an endpoint always count as intersecting, in every orientation |
| Geom.AreaSignedIsShoelace | apps/d_geo_compute/geom_utils.py:57-61 | the vertex-by-vertex cross-product sum equals the numpy formula `0.5*(dot(x, roll(y,-1)) - dot(y, roll(x,-1)))` |
| Geom.AreaSignedReverse | apps/d_geo_compute/geom_utils.py:57-61 | reversing the vertex order negates the signed area |
| Geom.AreaSignedRotate | apps/d_geo_compute/geom_utils.py:57-61 | starting the polygon at its second vertex leaves the signed area unchanged |
| Geom.AreaSigned4 | apps/d_geo_compute/geom_utils.py:57-61 | for a quadrilateral the area is half the sum of the four edge cross products |
| Geom.AreaSignedTriangle | apps/d_geo_compute/geom_utils.py:23-27 | `orient2d(a,b,c)` is twice the signed area of the triangle abc |
| Geom.EnsureCcw | apps/d_geo_compute/geom_utils.py:64-65 | positive area returns the points unchanged, otherwise (p0,p3,p2,p1); fewer points than the indices used raise IndexError; for four points the result keeps p0, is a permutation of the input and has area equal to the absolute input area |
| Geom.ReversedQuad | apps/d_geo_compute/geom_utils.py:64-65 | the relabelling (p0,p3,p2,p1) negates the signed area and is a permutation of the four points |
| Geom.DiagCrossRelabel | apps/d_geo_compute/geom_utils.py:68-69 | `diag_cross_inside` (= `seg_x(A,C,B,D)`) is unchanged by a cyclic relabelling and by reflecting the labelling |
| Geom.MinX | apps/d_geo_compute/geom_utils.py:74 | the x-minimum bounds every point's x from below |
| Geom.MaxX | apps/d_geo_compute/geom_utils.py:75 | the x-maximum bounds every point's x from above |
| Geom.MinY | apps/d_geo_compute/geom_utils.py:74 | the y-minimum bounds every point's y from below |
| Geom.MaxY | apps/d_geo_compute/geom_utils.py:75 | the y-maximum bounds every point's y from above |
| Geom.ExtremesAttained | apps/d_geo_compute/geom_utils.py:74-75 | each component of `pmin` and `pmax` is the coordinate of some point, so the bounds are tight |
| Geom.PlaceAll | apps/d_geo_compute/geom_utils.py:80-85 | the output has one placed point per input, in input order |
| Geom.Fit | apps/d_geo_compute/geom_utils.py:72-85 | fitting succeeds exactly for a non-empty point list (empty input raises IndexError), keeps the length and returns the uniform scale `min((W-2m)/max(w,EPS), (H-2m)/max(h,EPS))` |
| Geom.FitIntoBox | apps/d_geo_compute/geom_utils.py:72-85 | the copy-and-append loop returns exactly `Fit`, and every output point keeps its z |
| Geom.FitMinCorner | apps/d_geo_compute/geom_utils.py:74-83 | the point at the figure's minimum corner lands on the box's minimum corner shifted by the margin |
| Geom.FitSimilarity | apps/d_geo_compute/geom_utils.py:78-83 | differences between output points are the input differences times the fit scale: the map is a uniform similarity |
| Geom.FitContained | apps/d_geo_compute/geom_utils.py:72-85 | when the box is at least twice the margin wide and high, every output point lies in `[box_min+margin, box_max-margin]` on both axes |
| Templates.Candidate | libs/geo/templates.py:12-13 | each branch keeps the seeds A and D of the quadrilateral |
| Templates.Candidates | libs/geo/templates.py:8-13 | one candidate per sign branch, in the nested-loop order (+1,+1), (+1,-1), (-1,+1), (-1,-1), built from the shared direction unit(D-A) |
| Templates.FirstAccepted | libs/geo/templates.py:10-19 | None exactly when no candidate passes all checks; otherwise the first candidate that passes, all earlier ones failing |
| Templates.SolveQuadDiaglenAng | libs/geo/templates.py:6-19 | the nested loop with its three `continue`s and early return computes exactly the first accepted branch |
| Templates.FirstAcceptedAt | libs/geo/templates.py:10-18 | an accepted candidate preceded only by rejected ones is the one returned |
| Templates.SolveQuadSound | libs/geo/templates.py:15-18 | a returned quad is not self-intersecting, has positive area and crossing diagonals, keeps A and D, and every earlier branch failed |
| Templates.SolveQuadNone | libs/geo/templates.py:10-19 | the search returns None if and only if all four branches fail a check |
| Templates.SolveRightAtC | libs/geo/templates.py:22-26 | always raises NotImplementedError |
| Templates.SolveSquare | libs/geo/templates.py:29-35 | exactly the keys A,B,C,D,E in order, A=(0,0), B=(0,-s), C=(s,-s), D=(s,0), E=(0.75·s, (√3/4)·s·2), all with z = 0 |
| Templates.SquareArea | libs/geo/templates.py:29-35 | ABCD is counter-clockwise with area s², and the result does not depend on the angle argument |
| Templates.SquareSideEight | libs/geo/templates.py:32-34 | for side 8 the code puts E at (6, 4√3), not at the (6, 2√3) of the comment, and angle AED is then not right |
| Planner.NumericOf | apps/d_compute/geo_compute/planner.py:21 | a value is usable as a numpy scalar exactly when it is a number or a boolean, and a number is used as it is |
| Planner.PointsValue | apps/d_geo_compute/planner.py:227-234 | a solution as a dict value: the same labels in order, each point as a numpy array |
| Planner.QuadInputsOf | apps/d_compute/geo_compute/planner.py:15-17 | the quadrilateral fields are read in source order (seed A, seed D, angles DAC/ADB, lengths AC/BD); a missing one raises that lookup's error; seeds go through `v3` |
| Planner.SolveQuadInputs | apps/d_compute/geo_compute/planner.py:16-19 | an input error propagates, a None from the template becomes RuntimeError with the source's message, and otherwise the result is the template's quad as labels A,B,C,D |
| Planner.PlanAndSolve | apps/d_compute/geo_compute/planner.py:11-22 | a missing `type` raises its lookup error, any type other than the two known ones raises NotImplementedError with "unknown spec.type=" and the type, and a solution has at least four points |
| Planner.PlanQuad | apps/d_compute/geo_compute/planner.py:14-19 | type "quad_diag2len2ang" is answered by the quadrilateral template on the fields it reads |
| Planner.SolveQuadInputsSound | apps/d_compute/geo_compute/planner.py:16-19 | a planned quadrilateral has labels A,B,C,D, passes every template check and keeps the seeds A and D |
| Planner.QuadPointsOf | libs/geo/templates.py:18 | `dict(A=A,B=B,C=C,D=D)` lists the labels A,B,C,D and gives back the quad's four points |
| Planner.PlanSquare | apps/d_compute/geo_compute/planner.py:20-21 | type "square_with_ADE" reads `lengths.side` then `angles.ADE` (either missing raises its lookup error); a number or boolean side gives the square template's result; text that `float` rejects raises ValueError "could not convert string to float: '…'", text it accepts raises TypeError at the negation `-side`, and None or a container raises TypeError |
| Planner.CornerItems | apps/d_compute/geo_compute/planner.py:25-26 | `box[k] + [0.0]` needs `box[k]` to be a list of scalars; otherwise the lookup or the list concatenation fails |
| Planner.NumericAll | apps/d_compute/geo_compute/planner.py:25-26 | a list converts to a numeric array exactly when every item is numeric, item by item |
| Planner.Coord | apps/d_geo_compute/geom_utils.py:77-79 | coordinate i of the padded corner array is the list's item i, or the appended 0.0 past its end |
| Planner.BoxFrom | apps/d_compute/geo_compute/planner.py:25-28 | a box is built only from numeric corner lists that broadcast against each other (equal lengths or one empty) and not both empty; the margin must be numeric; the box corners are the lists' first two coordinates |
| Planner.PointsOnly | apps/d_compute/geo_compute/planner.py:28 | `[points[k] for k in order]`: the points in key order |
| Planner.Relabel | apps/d_compute/geo_compute/planner.py:29 | `{k: arr[i] for i,k in enumerate(order)}`: each label gets the fitted point at its position |
| Planner.ScaleIntoBox | apps/d_compute/geo_compute/planner.py:24-29 | a bad `min` or `max` raises its error, no points raise IndexError, and a result has one point per input point |
| Planner.ScaleIntoBoxLabels | apps/d_compute/geo_compute/planner.py:24-29 | a scaled solution keeps the labels and their order, its points are exactly `fit_into_box`'s output and its scale is the fit's scale |
| Planner.ScaleIntoBoxDefaultMargin | apps/d_compute/geo_compute/planner.py:28 | a box without a margin scales exactly as one with margin 0.2 |
| Planner.ScaleIntoBoxCorners | apps/d_compute/geo_compute/planner.py:24-29 | two-number corners are used as the box's min and max with margin 0.2, and scaling then always succeeds |
| Planner.EmptyMinIsOrigin | apps/d_compute/geo_compute/planner.py:25-26 | an empty `min` list broadcasts as the origin against a two-number `max` |
| GeoPipeline.EncodePoints | apps/d_geo_compute/planner.py:181 | the encoded points keep the labels in order, one entry per point, as arrays or as `tolist()` lists |
| GeoPipeline.EncodingSerialisable | apps/d_geo_compute/planner.py:181-203 | `json.dump` accepts the encoded points if and only if they were converted to lists or there are none |
| GeoPipeline.EncodingSerialisableOpt | apps/d_geo_compute/planner.py:183-203 | the same for the optional `original_points` |
| GeoPipeline.SolveCore | apps/d_geo_compute/planner.py:224-240 | a planning error propagates; without a box the solution is the planned points with scale 1.0; with a box it is `scale_into_box`'s result and keeps the planned points as the originals |
| GeoPipeline.ErrorDict | apps/d_geo_compute/planner.py:242-248 | the error result: status "error", the message, empty points, scale_factor 1.0, no original points |
| GeoPipeline.ErrorDictSerialisable | apps/d_geo_compute/planner.py:193-203 | an error result can always be saved as JSON |
| GeoPipeline.SolvedDict | apps/d_geo_compute/planner.py:179-190 | the solved result: status "solved", the encoded points, the scale, and `original_points` exactly when a box was applied |
| GeoPipeline.SolvedTail | apps/d_geo_compute/planner.py:183 | the optional tail holds `original_points` only when a box was applied, and no other key of the result |
| GeoPipeline.SolvedDictSerialisable | apps/d_geo_compute/planner.py:179-203 | a solved result can be saved as JSON if and only if its points were converted to lists or it has no points at all |
| GeoPipeline.Report | apps/d_geo_compute/planner.py:172-198 | the reported status is "solved" exactly for a solution; a failure reports its message with empty points and scale 1.0 |
| GeoPipeline.SolveSpec | apps/d_geo_compute/planner.py:213-248 | `solve_spec` never raises: its status is "solved" when planning and scaling succeed and "error" otherwise |
| GeoPipeline.SolveSpecCases | apps/d_geo_compute/planner.py:222-248 | planning failure gives the error dict; no box gives the raw points and scale 1.0 without originals; with a box a scaling failure gives the error dict and success gives the scaled points, the fit scale and the raw points as `original_points` |
| GeoPipeline.SolveSpecFile | apps/d_geo_compute/planner.py:251-269 | a missing or unreadable file gives the error dict naming the path; a readable one is solved by `solve_spec` |
| GeoPipeline.SolveSpecFileRoundTrip | apps/d_geo_compute/planner.py:251-262 | solving a spec from the file it was saved to gives the same result as solving the spec directly |
| GeoPipeline.NotFound | apps/d_geo_compute/planner.py:148-153 | without spec.json the result has status "error" and names the spec path |
| GeoPipeline.Skipped | apps/d_geo_compute/planner.py:156-166 | the skip result has status "skipped" and carries the existing result |
| GeoPipeline.Outcome | apps/d_geo_compute/planner.py:171-198 | the result before saving: the load error, or the solve report; it can be saved as JSON exactly when loading or solving failed or the points are lists |
| GeoPipeline.SolveAndSave | apps/d_geo_compute/planner.py:131-210 | no spec.json: nothing written, not-found result; a readable existing result and no overwrite: nothing written, skip result; otherwise the outcome is dumped to geo_result.json, and the result gets `result_path` when the dump succeeded or status "error" with "Failed to save result: ..." when it failed, and always `spec_path` |
| GeoPipeline.SaveFields | apps/d_geo_compute/planner.py:201-209 | after saving, `spec_path` is set; on success the status is unchanged and `result_path` is set; on failure status is "error" with the save message |
| GeoPipeline.SolveInProblemDir | apps/d_geo_compute/planner.py:131-210 | as written: no file except geo_result.json changes; every successfully solved spec is reported as an error and leaves geo_result.json unreadable, since `json.dump` rejects the numpy arrays; only failures are saved readably |
| GeoPipeline.SolveInProblemDirCorrected | apps/d_geo_compute/planner.py:131-210 | with the points converted to lists, every non-skipped outcome is saved and reads back as reported, and a solved spec is reported as "solved" |
| GeoPipeline.SpecPathNotResultPath | apps/d_geo_compute/planner.py:49-62 | a `spec_*.json` file is never one of the `geo_result_<n>.json` files the loop writes |
| GeoPipeline.SkippedEntry | apps/d_geo_compute/planner.py:71-78 | a skip entry names the spec file, result file and index, has status "skipped" and carries the existing result |
| GeoPipeline.ErrorEntry | apps/d_geo_compute/planner.py:119-126 | an error entry names the spec file, result file and index, with status "error" and the message |
| GeoPipeline.SolvedEntry | apps/d_geo_compute/planner.py:90-109 | a solved entry names its files and index, holds the listed points, the fit scale when the spec has a box and 1.0 otherwise, and the spec's box exactly when it has one |
| GeoPipeline.BoxTail | apps/d_geo_compute/planner.py:99 | the optional tail holds `box` when the spec has one and no other key |
| GeoPipeline.Attempt | apps/d_geo_compute/planner.py:85-127 | load, solve and save one spec: the entry names its files and index, only the result file may change, and a "solved" entry is exactly what the result file now holds |
| GeoPipeline.Step | apps/d_geo_compute/planner.py:60-127 | an iteration raises exactly when the stem is not `spec_<int>` (nothing written); otherwise its entry names the file and its index and only that index's result file may change |
| GeoPipeline.SolveAllSpecsInProblemDir | apps/d_geo_compute/planner.py:32-129 | no spec files: exactly one error entry and nothing written; otherwise the loop computes exactly the file-by-file `Process` over the sorted listing |
| GeoPipeline.ProcessStops | apps/d_geo_compute/planner.py:61 | once an iteration raises, the files after it are never looked at |
| GeoPipeline.ProcessSnoc | apps/d_geo_compute/planner.py:59-127 | one more file extends the entries by that file's step unless the loop already raised |
| GeoPipeline.ProcessEntries | apps/d_geo_compute/planner.py:59-129 | a completed loop returns one entry per spec file, in sorted order, each naming its file and the index parsed from its stem |
| GeoPipeline.ProcessFails | apps/d_geo_compute/planner.py:61 | the loop raises if and only if some spec file's stem has no integer after `spec_` |
| GeoPipeline.ProcessLastFails | apps/d_geo_compute/planner.py:59-61 | the loop over n files raises exactly when the loop over the first n-1 raised or the last stem is bad |
| GeoPipeline.ProcessFrame | apps/d_geo_compute/planner.py:59-127 | the loop changes no file other than `geo_result_<n>.json` files and creates no other file; spec files are untouched |
| Solver.DefaultBox | apps/d_geo_compute/solver.py:12 | the default box has min [-6,-3], max [6,3] and margin 0.2 |
| Solver.FloatList | apps/d_geo_compute/solver.py:29 | the float list has one number per coordinate, in order |
| Solver.NormalisePoints | apps/d_geo_compute/solver.py:23-32 | the loop over the points computes exactly the prefix-by-prefix specification `Normalised` |
| Solver.NormalisedStops | apps/d_geo_compute/solver.py:30-31 | once a point cannot be converted, the later points do not matter |
| Solver.NormalisedFails | apps/d_geo_compute/solver.py:23-32 | normalisation fails if and only if some non-None value cannot be converted, and then it raises ValueError naming the first such key |
| Solver.KeptKeys | apps/d_geo_compute/solver.py:25-29 | every key of the output is a key of the input |
| Solver.NormalisedKeeps | apps/d_geo_compute/solver.py:23-32 | with distinct keys and nothing unconvertible, the output is the input with None values dropped, in the same key order, each value as a float list |
| Solver.KeptAll | apps/d_geo_compute/solver.py:25-29 | with no None and nothing unconvertible, every key is kept, in order, with its coordinates as floats |
| Solver.NormalisedArrays | apps/d_geo_compute/solver.py:43-45 | the planner's numpy points always normalise, one float list [x,y,z] per label, in order |
| Solver.WithMetaProps | apps/d_geo_compute/solver.py:15-20 | after `_ensure_meta` the spec's meta is a dict: the existing one when it was a dict, otherwise {}; no other key changes; `meta` is appended only when it was absent |
| Solver.Solved | apps/d_geo_compute/solver.py:35-52 | a missing or undefined type ("__TBD__", None, "") raises ValueError before planning; planning errors propagate; success implies planning and scaling into the box both succeeded |
| Solver.StampedFields | apps/d_geo_compute/solver.py:45-50 | the merge sets points, scale and status "solved"; every key other than points, scale, status and meta is unchanged |
| Solver.StampedMeta | apps/d_geo_compute/solver.py:49-50 | meta is a dict whose `solved_at` is the timestamp plus "Z"; an existing meta dict keeps all its other keys |
| Solver.StampedKeys | apps/d_geo_compute/solver.py:45-50 | no key of the spec is lost by the merge |
| Solver.SolvedFrame | apps/d_geo_compute/solver.py:41-52 | a solved spec is the input with the normalised scaled points, the fit scale, status and meta stamped, and every other key untouched |
| Solver.SolvedBox | apps/d_geo_compute/solver.py:42 | a truthy box in the spec is used as it is; a missing or falsy one is replaced by the default box |
| Solver.SolvedSerialisable | apps/d_geo_compute/solver.py:74-75 | a solved spec loaded from JSON can always be saved back as JSON |
| Solver.StampedSerialisable | apps/d_geo_compute/solver.py:45-50 | the merge keeps a JSON-serialisable spec serialisable |
| Solver.WithMetaSerialisable | apps/d_geo_compute/solver.py:15-20 | `_ensure_meta` keeps a JSON-serialisable spec serialisable |
| Solver.SerialisablePut | apps/d_geo_compute/solver.py:45-47 | setting a serialisable value in a serialisable dict keeps it serialisable |
| Solver.NormalisedSerialisable | apps/d_geo_compute/solver.py:23-32 | normalised points are always JSON-serialisable |
| Solver.SpecDict.EnsureMeta | apps/d_geo_compute/solver.py:15-20 | the spec dict is updated in place to `WithMeta` and the returned dict is the one now stored under `meta` |
| Solver.SpecDict.SolveSpec | apps/d_geo_compute/solver.py:35-52 | on failure the spec dict is unchanged and the error is the one `Solved` gives; on success the dict, updated in place, is the solved spec |
| Solver.SolveSpecFile | apps/d_geo_compute/solver.py:55-77 | missing file: FileNotFoundError; unreadable or non-dict document: its error, nothing written; solve errors propagate before any write; an existing target with overwrite=False raises FileExistsError without writing, so with no output path overwrite=False always raises; otherwise the solved spec is dumped to the target and reads back as the returned value |
| Solver.SolveInProblemDir | apps/d_geo_compute/solver.py:80-90 | resolves `<dir>/<spec_filename>`: missing raises FileNotFoundError; overwrite=False always fails without writing; a returned spec is what the file now holds |
| SpecCodegen.ShapeBox | apps/c_geo_codegen/spec_codegen.py:93-102 | a missing or non-dict box becomes the default box; any stored box has exactly min, max and a float margin, in that order; a box already in that shape is kept as it is |
| SpecCodegen.ShapeBoxFields | apps/c_geo_codegen/spec_codegen.py:97-101 | a dict box is rebuilt field by field: `list(min)`, `list(max)` and `float(margin)`, each defaulting on its own, and the first failing conversion raises |
| SpecCodegen.ShapeMeta | apps/c_geo_codegen/spec_codegen.py:110-116 | a non-dict meta becomes {notes: DEFAULT_NOTES}; a dict meta keeps every other key, keeps its notes when they are a non-empty list and gets DEFAULT_NOTES otherwise |
| SpecCodegen.EnsureSpecShape | apps/c_geo_codegen/spec_codegen.py:86-117 | the step-by-step setdefault and assignment sequence computes exactly the staged specification `Shaped` |
| SpecCodegen.FilledLookup | apps/c_geo_codegen/spec_codegen.py:89-92 | the `setdefault`s add type "__TBD__" and empty seed/angles/lengths only where absent, and never change an existing key |
| SpecCodegen.FinishLookup | apps/c_geo_codegen/spec_codegen.py:103-116 | points and scale get defaults only where absent; extras, point_labels, status and meta are always reassigned as normalised; other keys are untouched |
| SpecCodegen.ShapedFails | apps/c_geo_codegen/spec_codegen.py:86-117 | normalisation fails if and only if rebuilding the box fails |
| SpecCodegen.ShapedLookup | apps/c_geo_codegen/spec_codegen.py:86-117 | the shaped spec reads each key from the finished stage after the box was stored |
| SpecCodegen.ShapedDefaults | apps/c_geo_codegen/spec_codegen.py:89-104 | existing type, seed, angles, lengths, points and scale are never overwritten; missing ones get "__TBD__", {}, {}, {}, {} and 1.0 |
| SpecCodegen.ShapedForced | apps/c_geo_codegen/spec_codegen.py:93-116 | box, extras, point_labels, status and meta always hold their normalised value: a non-list extras becomes [], non-dict labels {}, a falsy status "draft" |
| SpecCodegen.ShapedOthers | apps/c_geo_codegen/spec_codegen.py:86-117 | keys outside the shaped set pass through unchanged |
| SpecCodegen.ShapedWellShaped | apps/c_geo_codegen/spec_codegen.py:86-117 | every normalised spec has all default keys and the normalised box, extras, labels, status and meta shape |
| SpecCodegen.ShapedHasDefaults | apps/c_geo_codegen/spec_codegen.py:89-104 | a normalised spec has type, seed, angles, lengths, points and scale |
| SpecCodegen.ShapedInShape | apps/c_geo_codegen/spec_codegen.py:93-116 | a normalised spec has a three-field box, list extras, dict labels, a truthy status and a dict meta with non-empty list notes |
| SpecCodegen.ShapedFixes | apps/c_geo_codegen/spec_codegen.py:86-117 | a spec already in shape is returned unchanged, key order included |
| SpecCodegen.FilledFixes | apps/c_geo_codegen/spec_codegen.py:89-92 | the `setdefault`s change nothing in a spec that has all their keys |
| SpecCodegen.FinishFixes | apps/c_geo_codegen/spec_codegen.py:103-116 | the later steps change nothing in a spec already in shape |
| SpecCodegen.ShapedIdempotent | apps/c_geo_codegen/spec_codegen.py:86-117 | normalising a normalised spec gives the same spec |
| SpecCodegen.ShapedKeeps | apps/c_geo_codegen/spec_codegen.py:89-104 | a present type, seed, angles, lengths, points or scale keeps its value |
| SpecCodegen.ShapedKeyOrder | apps/c_geo_codegen/spec_codegen.py:86-117 | no key of the input dict is lost |
| SpecCodegen.FilledKeys | apps/c_geo_codegen/spec_codegen.py:89-92 | the `setdefault` stage loses no key |
| SpecCodegen.FinishKeys | apps/c_geo_codegen/spec_codegen.py:103-116 | the later stage loses no key |
| SpecCodegen.SetDefaultKeys | apps/c_geo_codegen/spec_codegen.py:89 | `setdefault` loses no key |
| SpecCodegen.ShapedNonDict | apps/c_geo_codegen/spec_codegen.py:87-88 | a non-dict input is normalised exactly as {} |
| SpecCodegen.ShapedEmpty | apps/c_geo_codegen/spec_codegen.py:66-117 | normalising {} gives exactly `_default_spec_template()`, key order included |
| SpecCodegen.DefaultTemplateFields | apps/c_geo_codegen/spec_codegen.py:66-81 | the default template is in shape, with type "__TBD__", status "draft", scale 1.0 and the default box |
| SpecCodegen.TemplateKeysDistinct | apps/c_geo_codegen/spec_codegen.py:66-81 | the template has eleven distinct keys |
| SpecCodegen.Chosen | apps/c_geo_codegen/spec_codegen.py:351-358 | a non-empty template is used; otherwise the model's spec when there is one; otherwise the default template |
| SpecCodegen.ProvenanceFields | apps/c_geo_codegen/spec_codegen.py:364-370 | with a model result, generated_by becomes "llm" and the model's settings are merged into a dict `llm`, which fails exactly when an existing `llm` is not a dict; otherwise generated_by is kept or defaulted to "template"/"default"; other meta keys are untouched |
| SpecCodegen.DraftedFields | apps/c_geo_codegen/spec_codegen.py:360-371 | a draft is the normalised chosen spec with status "draft" and meta stamped with `created_at` and provenance; other keys come from the normalised spec |
| SpecCodegen.DraftedWellShaped | apps/c_geo_codegen/spec_codegen.py:360-371 | every draft is in shape, has status "draft" and carries the creation time |
| SpecCodegen.DraftedMeta | apps/c_geo_codegen/spec_codegen.py:361-370 | the meta dict of a draft |
| SpecCodegen.DraftedProvenance | apps/c_geo_codegen/spec_codegen.py:347-370 | generated_by is "llm" when the model answered with no template, and otherwise the spec's own value or "template"/"default" |
| SpecCodegen.DefaultProvenance | apps/c_geo_codegen/spec_codegen.py:357-370 | with neither template nor model result the draft says generated_by "default" |
| SpecCodegen.TemplateMeta | apps/c_geo_codegen/spec_codegen.py:78-80 | the template's meta is exactly {notes: DEFAULT_NOTES}, with no generated_by |
| SpecCodegen.TemplateSuppressesModel | apps/c_geo_codegen/spec_codegen.py:347-353 | with a template the model's answer does not affect the draft |
| SpecCodegen.GenerateSpec | apps/c_geo_codegen/spec_codegen.py:322-377 | an existing file with overwrite false is returned as read, nothing written; otherwise the draft is dumped to the spec path (errors propagate, nothing written on a draft error) and a returned spec is what the file now holds |
| SpecCodegen.Draft | apps/c_geo_codegen/spec_codegen.py:347-371 | the in-place drafting steps compute exactly the specification `Drafted` |
| SpecCodegen.EnsureSpec | apps/c_geo_codegen/spec_codegen.py:380-403 | an existing file is returned as read without writing; otherwise the default or model draft is generated and persisted; a returned spec is what the file holds |
| SpecCodegen.EnsureSpecTwice | apps/c_geo_codegen/spec_codegen.py:385-403 | `ensure_spec` is idempotent: after a successful call, a second one, whatever the model and clock say, returns the same spec |
| SpecCodegen.SpecFileInjective | apps/c_geo_codegen/spec_codegen.py:287 | different image indices name different `spec_<i>.json` files |
| SpecCodegen.SpecFileNotAnchors | apps/c_geo_codegen/spec_codegen.py:261-287 | no spec file is the anchors file the loop read |
| SpecCodegen.Stamp | apps/c_geo_codegen/spec_codegen.py:301-308 | the model's spec gains meta image_index, generated_by "llm", its settings and the time; it fails exactly when meta or the anchor item is not a dict; keys other than meta are untouched |
| SpecCodegen.Step | apps/c_geo_codegen/spec_codegen.py:286-318 | one image writes at most its own `spec_<i>.json`, leaves every other file as it was, and a spec it returns is what that file holds |
| SpecCodegen.Specs | apps/c_geo_codegen/spec_codegen.py:294-316 | the returned list is the collected specs in loop order |
| SpecCodegen.GenerateSpecsForAllImages | apps/c_geo_codegen/spec_codegen.py:249-320 | a failing anchors read raises with nothing written; otherwise the loop computes exactly the image-by-image `Loop` and returns its specs |
| SpecCodegen.GenerateOne | apps/c_geo_codegen/spec_codegen.py:286-318 | the loop body with its skip, regenerate and `continue` paths computes exactly `Step` |
| SpecCodegen.SpecsSnoc | apps/c_geo_codegen/spec_codegen.py:316 | appending a spec appends its value |
| SpecCodegen.LoopStops | apps/c_geo_codegen/spec_codegen.py:283-318 | once an image raises, later images are not processed |
| SpecCodegen.LoopSnoc | apps/c_geo_codegen/spec_codegen.py:283-318 | one more image extends the loop by exactly one `Step` |
| SpecCodegen.LoopFrame | apps/c_geo_codegen/spec_codegen.py:283-318 | the loop writes only `spec_<i>.json` files for the images it saw; all other files, the anchors file included, are unchanged |
| SpecCodegen.LoopPersisted | apps/c_geo_codegen/spec_codegen.py:283-320 | every returned spec, tagged with its image index, is what that index's spec file now holds, in increasing index order |
| SpecCodegen.LoopKeepsExisting | apps/c_geo_codegen/spec_codegen.py:289-295 | with overwrite false, an existing readable spec file is returned and left as it was |
| SpecCodegen.LoopPrefix | apps/c_geo_codegen/spec_codegen.py:283-320 | a successful loop's results on a prefix of the images are a prefix of its results |
| AnchorIr.PerpDist | apps/b_graphsampling/anchor_ir.py:107-110 | the distance to a chord, or to `a` when the chord is a point, is never negative |
| AnchorIr.Pick | apps/b_graphsampling/anchor_ir.py:95 | `P[keep]`: the points at the kept indices, in order |
| AnchorIr.FarthestIsFirstMax | apps/b_graphsampling/anchor_ir.py:112-118 | the scan returns the first interior point of strictly maximal distance, or index 0 with distance 0 when no interior point is farther than 0, and every interior point is no farther |
| AnchorIr.FindFarthest | apps/b_graphsampling/anchor_ir.py:112-118 | the `for` loop with its `d > dmax` update computes exactly `Farthest` |
| AnchorIr.RdpKept | apps/b_graphsampling/anchor_ir.py:111-124 | the kept indices start at the first point, end at the last and stay within the range |
| AnchorIr.RdpKeptChords | apps/b_graphsampling/anchor_ir.py:111-124 | the kept indices strictly increase and every skipped point lies within eps of the chord that spans it |
| AnchorIr.SplitChords | apps/b_graphsampling/anchor_ir.py:119-122 | splitting at the farthest point and joining `rec1[:-1]` with `rec2` keeps both properties |
| AnchorIr.EndsWithin | apps/b_graphsampling/anchor_ir.py:123-124 | when no interior point is farther than eps, the two endpoints alone satisfy both properties |
| AnchorIr.JoinChords | apps/b_graphsampling/anchor_ir.py:122 | joining two index runs that share their meeting point keeps them increasing and within eps |
| AnchorIr.RdpSimplifies | apps/b_graphsampling/anchor_ir.py:104-125 | fewer than 3 points are returned unchanged; otherwise the result is a subsequence of the input that starts with its first and ends with its last point, and every skipped point lies within eps of its chord |
| AnchorIr.RdpStraight | apps/b_graphsampling/anchor_ir.py:119-124 | when every interior point is within eps of the end-to-end chord, only the two endpoints remain |
| AnchorIr.DedupKeep | apps/b_graphsampling/anchor_ir.py:91-94 | the kept indices always include index 0 and stay below the number of points scanned |
| AnchorIr.Deduped | apps/b_graphsampling/anchor_ir.py:91-95 | de-duplication succeeds exactly on non-empty input and keeps the first point |
| AnchorIr.DedupApart | apps/b_graphsampling/anchor_ir.py:91-94 | the kept indices increase and each kept point is at least 0.8 from the previously kept one |
| AnchorIr.DedupNear | apps/b_graphsampling/anchor_ir.py:92-94 | every dropped point is closer than 0.8 to the last point kept before it |
| AnchorIr.Dedup | apps/b_graphsampling/anchor_ir.py:91-95 | the `keep` loop computes exactly `Deduped` |
| AnchorIr.BboxArea | apps/b_graphsampling/anchor_ir.py:146 | the clamped bounding-box area is never negative |
| AnchorIr.Candidates | apps/b_graphsampling/anchor_ir.py:141-152 | every candidate is an admitted path (bbox area at least the minimum and length at least the minimum), with that path's index and length |
| AnchorIr.CandidatesExact | apps/b_graphsampling/anchor_ir.py:141-152 | candidates keep the path order, and every admitted path is a candidate |
| AnchorIr.InsertByLength | apps/b_graphsampling/anchor_ir.py:154 | inserting keeps every candidate: the result is a permutation of the input plus the new one |
| AnchorIr.SortByLength | apps/b_graphsampling/anchor_ir.py:154 | sorting is a permutation of the candidates |
| AnchorIr.InsertSorted | apps/b_graphsampling/anchor_ir.py:154 | inserting a later candidate into a sorted run keeps it sorted by descending length, ties in path order |
| AnchorIr.SortByLengthSorted | apps/b_graphsampling/anchor_ir.py:154 | the sort orders candidates by descending length, stably, and is a permutation |
| AnchorIr.Head | apps/b_graphsampling/anchor_ir.py:155 | `cand[:max_paths]` is a prefix of length min(m, n), or n+m for a negative m (clamped at 0) |
| AnchorIr.SampleCount | apps/b_graphsampling/anchor_ir.py:160 | the sample count is `ceil(L/max(1e-6, step))` clamped to [20, 300] |
| AnchorIr.Quantise | apps/b_graphsampling/anchor_ir.py:170-171 | quantising keeps the number of points |
| AnchorIr.QuantiseOnGrid | apps/b_graphsampling/anchor_ir.py:171 | every quantised coordinate is an integer multiple of the quantum |
| AnchorIr.TracedShape | apps/b_graphsampling/anchor_ir.py:160-171 | a traced polyline is non-empty and, when the quantum is positive, lies on the quantum grid |
| AnchorIr.Traces | apps/b_graphsampling/anchor_ir.py:159-171 | one traced result per candidate, in order |
| AnchorIr.EmitNext | apps/b_graphsampling/anchor_ir.py:161-175 | a raising sample propagates, a skipped candidate (`continue`) changes nothing, and an emitted polyline is appended with the running total and the break flag |
| AnchorIr.EmitSettled | apps/b_graphsampling/anchor_ir.py:174-175 | once the loop has broken out or raised, later candidates change nothing |
| AnchorIr.EmitCap | apps/b_graphsampling/anchor_ir.py:172-175 | the total of all polylines but the last stays within the cap |
| AnchorIr.EmitStepCap | apps/b_graphsampling/anchor_ir.py:172-175 | appending one polyline before the break keeps the cap property |
| AnchorIr.EmitShape | apps/b_graphsampling/anchor_ir.py:159-175 | every emitted polyline is non-empty, named `path<i>` after a visited candidate, and on the grid |
| AnchorIr.SelectedSorted | apps/b_graphsampling/anchor_ir.py:141-155 | the selected candidates are admitted paths sorted by descending length, at most `max_paths` of them |
| AnchorIr.SelectedComplete | apps/b_graphsampling/anchor_ir.py:141-155 | when `max_paths` is not reached, every admitted path is selected |
| AnchorIr.NoCut | apps/b_graphsampling/anchor_ir.py:154-155 | when `max_paths` is at least the number of paths, the truncation keeps the whole sorted list |
| AnchorIr.CandidatesShort | apps/b_graphsampling/anchor_ir.py:141-152 | there are never more candidates than paths |
| AnchorIr.PolylinesSpec | apps/b_graphsampling/anchor_ir.py:128-180 | the total over all but the last polyline is within `total_points_cap`, and each polyline comes from a selected candidate, non-empty and on the grid |
| AnchorIr.CollectCandidates | apps/b_graphsampling/anchor_ir.py:140-152 | the filtering loop computes exactly `Candidates` |
| AnchorIr.TraceOne | apps/b_graphsampling/anchor_ir.py:160-171 | one loop body (count, sample, de-duplicate, simplify, quantise) computes exactly `Traced` |
| AnchorIr.SvgToPolylines | apps/b_graphsampling/anchor_ir.py:128-180 | the whole function computes exactly `Polylines` |
| AnchorIr.TraceCandidates | apps/b_graphsampling/anchor_ir.py:157-175 | the counter loop with its `break` computes exactly the emission specification |
| AnchorIr.MakeAffine | apps/b_graphsampling/anchor_ir.py:195-200 | A = [[fw/W, 0], [0, -fh/H]] and t = [-fw/2, fh/2]; a zero width or height raises ZeroDivisionError |
| AnchorIr.MakeAffineCorners | apps/b_graphsampling/anchor_ir.py:195-200 | the pixel origin maps to the frame's top-left corner, pixel (W,H) to its bottom-right, and `rotate` is ignored |
| AnchorIr.ParseAll | apps/b_graphsampling/anchor_ir.py:208 | `map(float, parts)` succeeds with every part's value, or fails because some part does not parse |
| AnchorIr.Dimension | apps/b_graphsampling/anchor_ir.py:212-220 | a width or height of 0 is reported as None |
| AnchorIr.SvgSizeViewBox | apps/b_graphsampling/anchor_ir.py:202-209 | a viewBox of exactly four comma- or space-separated numbers yields its last two as (w, h) |
| AnchorIr.ParseAllOf | apps/b_graphsampling/anchor_ir.py:208 | parts that all parse give exactly their values |
| AnchorIr.SvgSizeFallback | apps/b_graphsampling/anchor_ir.py:212-220 | without a usable viewBox, each of width and height is present exactly when the attribute exists, parses and is non-zero, and then it is that value |
| AnchorIr.CropRegion | apps/b_graphsampling/anchor_ir.py:238-257 | an applied crop lies inside the raster and has positive width and height |
| AnchorIr.CropCorners | apps/b_graphsampling/anchor_ir.py:245-257 | an [x0,y0,x1,y1] box inside the raster is used as those corners |
| AnchorIr.CropSizes | apps/b_graphsampling/anchor_ir.py:245-257 | an [x,y,w,h] box that cannot be read as corners is used as origin plus size |
| AnchorIr.CropIgnored | apps/b_graphsampling/anchor_ir.py:238 | anything but a four-element list applies no crop |
| AnchorIr.RoundWhole | apps/b_graphsampling/anchor_ir.py:241 | rounding a whole number gives it back |
| AnchorIr.EdgeOf | apps/b_graphsampling/anchor_ir.py:299-305 | a polyline of at most 6 points whose ends are more than 10 apart becomes a segment of its rounded ends; anything else a polyline of all its rounded points |
| AnchorIr.BuildEdges | apps/b_graphsampling/anchor_ir.py:297-305 | one edge per polyline, in order, each `EdgeOf` that polyline |
| AnchorIr.ScaleHints | apps/b_graphsampling/anchor_ir.py:282-288 | every axis hint is rescaled by (sx, sy), one per hint, in order |
| AnchorIr.SvgScale | apps/b_graphsampling/anchor_ir.py:280-281 | the scale is the SVG size over the raster size when both are non-zero, and 1.0 otherwise |
| AnchorIr.UseSize | apps/b_graphsampling/anchor_ir.py:292-293 | a non-zero SVG size is used truncated to an integer; otherwise the raster size |
| AnchorIr.BuildAnchorItem | apps/b_graphsampling/anchor_ir.py:222-327 | an unreadable image raises RuntimeError; otherwise the item records whether a crop was applied, the size used, the dpi, `make_affine` of that size, one edge per polyline and the rescaled hints; a zero size raises ZeroDivisionError |
| AngleRules.CcwDelta | apps/d_compute/geo_compute/angle_rules.py:10-12 | `(b-a) mod 2π` lies in [0, 2π) and differs from b-a by a whole number of turns |
| AngleRules.ModUnique | apps/d_compute/geo_compute/angle_rules.py:11 | the remainder is the unique value in [0, m) congruent to x, so the modulo is fully determined |
| AngleRules.CcwDeltaSwap | apps/d_compute/geo_compute/angle_rules.py:10-12 | turning back from b to a is the full turn minus turning from a to b (0 stays 0) |
| AngleRules.InnerOrder | apps/d_compute/geo_compute/angle_rules.py:14-20 | the result is (P,Q) or (Q,P), and the counter-clockwise turn from the first arm to the second is at most π |
| AngleRules.InnerOrderSymmetric | apps/d_compute/geo_compute/angle_rules.py:14-20 | unless the arms are aligned or opposite, the order does not depend on the order P and Q were given |
| AngleRules.MeasuredInnerDeg | apps/d_compute/geo_compute/angle_rules.py:36-39 | the measured inner angle lies in [0, 180] degrees |
| AngleRules.MeasuredInnerSymmetric | apps/d_compute/geo_compute/angle_rules.py:36-39 | `measured_inner_deg(V,P,Q) == measured_inner_deg(V,Q,P)` |
| AngleRules.MeasuredIsDrawnTurn | apps/d_compute/geo_compute/angle_rules.py:14-39 | the measured angle is the counter-clockwise turn between the arms in the order `inner_order` draws them |
| SceneRuntime.Flatten | apps/d_compute/geo_compute/scene_runtime.py:19 | `np.array(val, dtype=float)` succeeds only on a rectangular (non-ragged) nesting |
| SceneRuntime.FlatSize | apps/d_compute/geo_compute/scene_runtime.py:19 | `reshape(-1)` has as many entries as the product of the array's dimensions |
| SceneRuntime.FlatListSize | apps/d_compute/geo_compute/scene_runtime.py:19 | a list of equally shaped items flattens to their count times the item size |
| SceneRuntime.ResolveDir | apps/d_compute/geo_compute/scene_runtime.py:14-24 | `resolve_dir` never fails on a non-list value, and on a list it fails exactly when the list is ragged or one of its items is refused by `float()` (None included; see "## Left out") |
| SceneRuntime.SizedDir | apps/d_compute/geo_compute/scene_runtime.py:18-24 | a list, tuple or array gives a direction exactly when it flattens into numbers, every item accepted by `float()` |
| SceneRuntime.UpperLower | apps/d_compute/geo_compute/scene_runtime.py:17 | upper-casing a lower-cased string equals upper-casing it directly |
| SceneRuntime.ResolveDirCaseInsensitive | apps/d_compute/geo_compute/scene_runtime.py:16-17 | a string label resolves the same whatever its letter case |
| SceneRuntime.ResolveDirNamed | apps/d_compute/geo_compute/scene_runtime.py:9-17 | "dl" resolves to DL and "Up" to UP, through DIR_MAP |
| SceneRuntime.ResolveDirUnknown | apps/d_compute/geo_compute/scene_runtime.py:17 | a string not in DIR_MAP (after upper-casing) resolves to UP |
| SceneRuntime.ResolveDirPair | apps/d_compute/geo_compute/scene_runtime.py:18-21 | a value that flattens to two numbers becomes (x, y, 0) |
| SceneRuntime.ResolveDirPairShapes | apps/d_compute/geo_compute/scene_runtime.py:18-21 | [x,y], [[x,y]] and [[x],[y]] all become (x, y, 0) |
| SceneRuntime.ResolveDirTriple | apps/d_compute/geo_compute/scene_runtime.py:22-23 | a three-number list or array is returned as floats unchanged |
| SceneRuntime.ResolveDirOtherSize | apps/d_compute/geo_compute/scene_runtime.py:18-24 | any other flattened size maps to UP |
| SceneRuntime.ResolveDirRagged | apps/d_compute/geo_compute/scene_runtime.py:19 | a ragged list such as [x, [y]] raises |
| SceneRuntime.BorderOrder | apps/d_compute/geo_compute/scene_runtime.py:40 | a spec without `border_order` uses ["A","B","C","D"]; a given one is used as it is |
| SceneRuntime.PointAt | apps/d_compute/geo_compute/scene_runtime.py:47-54 | `pts[k]` succeeds exactly for a solved label and otherwise raises KeyError(k) |
| SceneRuntime.ExtraPoint | apps/d_compute/geo_compute/scene_runtime.py:47-54 | `pts[ex[key]]`: a missing field raises its lookup error; a string name gives its point exactly when it is a solved label, else KeyError; a number, None or boolean name raises KeyError; a list, dict or array name is unhashable and raises TypeError |
| SceneRuntime.AngleArmsAsWrittenFails | apps/d_compute/geo_compute/scene_runtime.py:54 | as written, reading the arms of an angle extra always raises, so no angle extra can be drawn |
| SceneRuntime.AngleArms | apps/d_compute/geo_compute/scene_runtime.py:54 | as intended, the apex and both arms are found exactly when all three lookups succeed, and then are those three points; otherwise the first failing lookup's error (apex, then p, then q) is raised |
| SceneRuntime.AngleArmsNamed | apps/d_compute/geo_compute/scene_runtime.py:53-54 | an angle extra naming three solved labels yields exactly those three points |
| CasText.SkipSpaces | pipelines/utils.py:17 | the leading `\s*` stops at the first non-space at or after p, having passed only spaces |
| CasText.SkipSpacesBack | pipelines/utils.py:18 | the trailing `\s*` stops right after the last non-space before q, having passed only spaces |
| CasText.StripCodeFences | pipelines/utils.py:14-19 | the result is a contiguous piece of the input (only a prefix and a suffix are removed) |
| CasText.FencedBodyRoundTrip | pipelines/utils.py:14-19 | a body wrapped in a ```python fence (with or without a final newline) is recovered exactly |
| CasText.OpeningOfFenced | pipelines/utils.py:17 | the opening-fence regex consumes exactly "```python\n" before a non-space |
| CasText.ClosingOfFenced | pipelines/utils.py:18 | the closing-fence regex starts exactly after the body |
| CasText.CloseFrom | pipelines/utils.py:27-33 | a closing position found by the depth scan holds a "]" |
| CasText.CloseFromSpec | pipelines/utils.py:26-34 | the scan stops at the first position where the bracket depth returns to zero, and fails exactly when it never does |
| CasText.BalancedArraySpec | pipelines/utils.py:22-34 | "no opening bracket" is raised exactly when there is no "[" from start on; a returned text starts with "[", ends with "]" and is balanced, with every proper prefix still open |
| CasText.BalancedArrayOpen | pipelines/utils.py:23-25 | the array begins at the first "[" at or after start |
| CasText.BalancedArrayFound | pipelines/utils.py:32-33 | the returned slice runs from the first "[" to the "]" that closes it |
| CasText.FindBalancedJsonArray | pipelines/utils.py:22-34 | the loop over characters returns what the balanced-array specification gives |
| CasText.PlainRun | pipelines/utils.py:41 | `[^{}]+` consumes a maximal run of characters other than braces |
| CasText.BraceGroup | pipelines/utils.py:41 | a matched `\{([^{}]+)\}` group ends after its opening position |
| CasText.ReadFrac | pipelines/utils.py:41 | a matched `\frac` starts with a backslash and consumes a non-empty prefix |
| CasText.ReplaceAllRemoves | pipelines/utils.py:42 | `replace("\\", "")` leaves no backslash |
| CasText.SplitWithout | pipelines/utils.py:43 | `split()` introduces no new character |
| CasText.JoinSpaceWithout | pipelines/utils.py:43 | joining with spaces adds only spaces |
| CasText.NormalizeExprShape | pipelines/utils.py:37-43 | a normalised expression has no backslash and no run of whitespace other than single inner spaces |
| CasText.FracSubWithout | pipelines/utils.py:41 | text without a backslash is left unchanged by the `\frac` rewrite |
| CasText.NormalizeExprIdempotent | pipelines/utils.py:37-43 | normalising a normalised expression changes nothing |
| CasText.NormalizeFrac | pipelines/utils.py:37-43 | `\frac{a}{b}` with brace-free, space-free operands becomes `(a)/(b)` |
| CasText.FracLiteralNoLeftRight | pipelines/utils.py:40 | such a fraction has no `\left`/`\right` for the first step to remove |
| CasText.FracLiteralSub | pipelines/utils.py:41 | the `\frac` rewrite turns it into `(a)/(b)` |
| CasText.ReadFracLiteral | pipelines/utils.py:41 | the `\frac` pattern matches the whole literal with a and b as its groups |
| CasText.DivisionWord | pipelines/utils.py:42-43 | `(a)/(b)` has no backslash and no whitespace, so the last two steps keep it |
| CasText.SplitAtMarker | pipelines/utils.py:47-52 | the split fails exactly when there is no `---CAS-JOBS---` marker; otherwise it is the stripped code before the first marker and the text after it |
| CasText.RawJobs | pipelines/utils.py:54-70 | the parsed list when `json.loads` succeeds, else the repaired objects, else "repair failed" |
| CasText.NormalizeTarget | pipelines/utils.py:74 | a normalised target is a string exactly when the input was a string; only a present non-string target fails |
| CasText.NormalizeTargetIdempotent | pipelines/utils.py:74 | normalising an already normalised target changes nothing |
| CasText.LabelJobSpec | pipelines/utils.py:72-74 | a job is labelled exactly when it is a dict with a normalisable target; it keeps an existing id, gets `S<idx>` otherwise, and its target is the normalised one |
| CasText.LabelPrefix | pipelines/utils.py:72-74 | labelling the first n jobs yields n jobs |
| CasText.LabelPrefixErrSticks | pipelines/utils.py:72-74 | once a job fails, later jobs do not change the outcome |
| CasText.LabelPrefixSpec | pipelines/utils.py:72-74 | the loop succeeds exactly when every job labels, each output is its job's label, and a failure is the first failing job's |
| CasText.LabelJobs | pipelines/utils.py:72-75 | the in-place labelling loop returns what the prefix specification gives |
| CasText.ExtractJobs | pipelines/utils.py:46-75 | no marker gives the marker error; on success the code is the stripped text before the first marker and the jobs come from the text after it |
| CasText.ExtractJobsAndCode | pipelines/utils.py:46-75 | the method computes the specification |
| CasText.MarkerAfterCode | pipelines/utils.py:48 | a marker placed after marker-free code is found right after that code |
| CasText.NoFences | pipelines/utils.py:14-19 | text without surrounding spaces or backticks passes the fence stripping unchanged |
| CasText.ExtractComposed | pipelines/utils.py:46-75 | code followed by the marker and a well-formed job array yields those jobs, labelled, and that code |
| CasText.SplitComposed | pipelines/utils.py:47-54 | such a text splits into that code and that array |
| CasText.FirstMatchUnique | pipelines/utils.py:48 | the first match of the marker is unique and is what the search finds |
| CasText.IdRun | pipelines/utils.py:11 | `[A-Za-z0-9_\-]+` consumes a maximal run of id characters |
| CasText.LeadingId | pipelines/utils.py:11 | a found id is a valid id and its `[[CAS:id]]` tag starts the text |
| CasText.IdRunOf | pipelines/utils.py:11 | the run over an id followed by a non-id character is exactly that id |
| CasText.LeadingIdComplete | pipelines/utils.py:11 | the text starts with the tag of a valid id exactly when that id is the one read |
| CasText.PlaceholderFromSpec | pipelines/utils.py:11 | the scan finds a placeholder exactly when some tag of a valid id occurs at or after i |
| CasText.ContainsPlaceholderSpec | pipelines/utils.py:78-79 | true exactly when the text is present and holds some `[[CAS:id]]` tag; None counts as "" |
| CasText.SubstIdentity | pipelines/utils.py:82-89 | without a placeholder whose id has a result, substitution changes nothing |
| CasText.SubstReplaces | pipelines/utils.py:82-89 | a single known placeholder between plain texts is replaced by its parenthesised Python result |
| CasText.SubstTag | pipelines/utils.py:83-87 | a known tag at the start becomes `(result_py)` |
| Stages.FindBalancedJsonArray | pipelines/stages.py:248-264 | the stage runner's index loop returns exactly what the orchestrator's balanced-array specification gives, so the two copies agree on every input |
| Stages.StageLabelSpec | pipelines/stages.py:242-243 | only dict jobs are labelled; a job keeps its id or receives its 1-based position as a string, and no other key changes |
| Stages.Parse | pipelines/stages.py:239 | `json.loads` succeeds exactly when the text decodes, and otherwise raises a decode error |
| Stages.StageExtract | pipelines/stages.py:220-245 | no marker gives the marker error; on success the code is the stripped text before the first marker |
| Stages.ExtractJobsAndCode | pipelines/stages.py:220-245 | the method computes the specification |
| Stages.ExtractorsAgree | pipelines/stages.py:220-245 | wherever this extractor succeeds on jobs that already carry an id and a normalised target, the orchestrator's extractor gives the same jobs and code |
| Stages.StageExtractSteps | pipelines/stages.py:229-239 | a successful extraction found the marker, a balanced array and parseable JSON |
| Stages.StageExtractOf | pipelines/stages.py:229-245 | those three steps and a labelling that keeps the jobs determine the result |
| Stages.PreparedLabels | pipelines/stages.py:242-243 | a prepared job is left unchanged by both labelling rules |
| Stages.SameLabels | pipelines/stages.py:242-243 | on prepared jobs both labelling loops return the jobs unchanged |
| Stages.LabelsKeep | pipelines/stages.py:242-243 | a labelling step that keeps every job keeps the list |
| Stages.RunStage | pipelines/stages.py:267-289 | a stage starts exactly for the numbers 1 to 5, the started stage has that number, and any other number raises ValueError with the source's message |
| Stages.RunStageNumber | pipelines/stages.py:278-287 | every stage is reached through its own number |
| Fill.Filled | apps/g_render/fill.py:9-32 | a draft without "[[CAS:" is returned unchanged; a returned code never holds "[[CAS:"; the only failure is the "unreplaced placeholder" ValueError |
| Fill.FillPlaceholders | apps/g_render/fill.py:17-32 | the loop with its `seen` set computes the specification |
| Fill.IdsSnoc | apps/g_render/fill.py:26 | adding a result adds its id to the seen set |
| Fill.FillPrefixSpec | apps/g_render/fill.py:20-27 | after n results the code is the draft with the first occurrence of each id replaced in turn, and `seen` holds the ids of those n results |
| Fill.FirstOccurrencesDistinct | apps/g_render/fill.py:23-26 | the results actually applied have distinct ids and cover every id seen |
| Fill.FilledFirstOccurrences | apps/g_render/fill.py:23-25 | a later result with an already seen id is ignored: filling with all results equals filling with the first occurrences only |
| Fill.FirstOccurrencesOfDistinct | apps/g_render/fill.py:23-26 | with distinct ids every result is applied |
| Fill.ReplacePlain | apps/g_render/fill.py:27 | `str.replace` leaves a prefix without the pattern's first character untouched |
| Fill.ReplaceOne | apps/g_render/fill.py:27 | the single placeholder of an id is replaced by the replacement |
| Fill.FillOne | apps/g_render/fill.py:9-32 | a draft with one placeholder and its result becomes the draft with `{result_tex}` in its place |
| Router.MakeRoute | apps/b_graphsampling/router.py:13-14 | the route reports the two flags it was given, and its mode is "vision" exactly when there is a diagram, "text" otherwise |
| Router.In | apps/b_graphsampling/router.py:20-21 | `c in CATS` raises TypeError exactly for an unhashable category, and otherwise is membership of a string in the set |
| Router.AnyInSpec | apps/b_graphsampling/router.py:20-21 | `any(c in CATS ...)` raises exactly when an unhashable category comes before the first hit, and otherwise is true exactly when some category is in the set |
| Router.RaisesCons | apps/b_graphsampling/router.py:20 | skipping a hashable miss at the head keeps "raises before a hit" unchanged |
| Router.HitCons | apps/b_graphsampling/router.py:20 | skipping a miss at the head keeps "some hit" unchanged |
| Router.Categories | apps/b_graphsampling/router.py:19 | the comprehension keeps at most one category per box |
| Router.CategoriesSpec | apps/b_graphsampling/router.py:19 | every collected category is that of some dict box, and every dict box contributes its category |
| Router.RouteFromBoxes | apps/b_graphsampling/router.py:17-23 | the mode is "vision" exactly when a diagram was found |
| Router.RouteFromBoxesSpec | apps/b_graphsampling/router.py:17-23 | with hashable categories the routing succeeds; a diagram is reported exactly when some dict box is a Picture, a list exactly when some dict box has a list category |
| Router.CategoriesSkipNonDict | apps/b_graphsampling/router.py:19 | inserting a non-dict box anywhere leaves the categories unchanged |
| Router.RouteIgnoresNonDicts | apps/b_graphsampling/router.py:17-23 | inserting a non-dict box anywhere leaves the route unchanged |
| Router.RouteProblem | apps/b_graphsampling/router.py:9-14 | the mode is "vision" exactly when a diagram was found |
| Router.CategoriesOfDicts | apps/b_graphsampling/router.py:19 | when every box is a dict the categories are the boxes' categories, in order |
| Router.RouteProblemAgrees | apps/b_graphsampling/router.py:9-23 | routing a document whose items carry the boxes' categories equals routing the boxes |
| Router.RouteProblemNoItems | apps/b_graphsampling/router.py:11-12 | a document without `items` routes to text with no diagram and no list |
| Router.LastIndex | apps/b_graphsampling/router.py:33 | the last occurrence of a character, or None exactly when it does not occur |
| Router.Ext | apps/b_graphsampling/router.py:33 | `os.path.splitext(f)[1]` is empty or a dot-led suffix of the name |
| Router.ExtOf | apps/b_graphsampling/router.py:33 | "stem.ext" with a stem holding a non-dot and no slash has extension ".ext" |
| Router.ExtOfHidden | apps/b_graphsampling/router.py:33 | a hidden file ".ext" has no extension |
| Router.FirstJson | apps/b_graphsampling/router.py:35-39 | the chosen file is the first name ending in ".json" in any letter case, and None exactly when there is none |
| Router.RouteFromDir | apps/b_graphsampling/router.py:26-49 | a diagram is reported exactly when some listed name has an image extension; mode follows the diagram; no JSON file means no list |
| Router.RouteFromDirAgrees | apps/b_graphsampling/router.py:37-45 | when the first JSON file holds a list of boxes, the folder's list flag is the boxes' list flag |
| PictureOcr.ChildOf | apps/a_ocr/tools/picture_ocr_pipeline.py:71-79 | one block raises exactly when it is a text or formula dict whose text is not a string, and otherwise adds at most one child |
| PictureOcr.ChildOfSpec | apps/a_ocr/tools/picture_ocr_pipeline.py:76-79 | a block adds the child holding its stripped text exactly when it is a text or formula dict with visible text |
| PictureOcr.NonDictBlock | apps/a_ocr/tools/picture_ocr_pipeline.py:73-74 | a block that is not a dict adds nothing |
| PictureOcr.BlocksToChildren | apps/a_ocr/tools/picture_ocr_pipeline.py:63-80 | the loop computes the conversion, including its early AttributeError |
| PictureOcr.ChildrenErrSticks | apps/a_ocr/tools/picture_ocr_pipeline.py:71-79 | once a block raises, later blocks do not change the outcome |
| PictureOcr.Positions | apps/a_ocr/tools/picture_ocr_pipeline.py:71 | the selected positions lie before n |
| PictureOcr.PositionsSpec | apps/a_ocr/tools/picture_ocr_pipeline.py:71 | the selected positions increase and are exactly those of the blocks that qualify |
| PictureOcr.ChildrenErrSpec | apps/a_ocr/tools/picture_ocr_pipeline.py:63-80 | the conversion raises AttributeError exactly when some text or formula block has non-string text |
| PictureOcr.ChildrenAt | apps/a_ocr/tools/picture_ocr_pipeline.py:79 | one child per selected position, holding that block's stripped text |
| PictureOcr.ChildrenSpec | apps/a_ocr/tools/picture_ocr_pipeline.py:63-80 | on success there is one child per contributing block, in block order, with that block's stripped text |
| PictureOcr.IntOf | apps/a_ocr/tools/picture_ocr_pipeline.py:38 | `int(x)` of a number truncates toward zero |
| PictureOcr.ClampBox | apps/a_ocr/tools/picture_ocr_pipeline.py:44-48 | the clamped box lies inside the image with its corners ordered |
| PictureOcr.ClampBoxKeeps | apps/a_ocr/tools/picture_ocr_pipeline.py:44-48 | a box inside the image is left as it is, and clamping twice is clamping once |
| PictureOcr.CropSaveSpec | apps/a_ocr/tools/picture_ocr_pipeline.py:36-61 | `_crop_save` raises exactly when a coordinate does not convert, and writes a crop exactly when all convert, the clamped box has positive width and height, and saving succeeds |
| PictureOcr.PageAt | apps/a_ocr/tools/picture_ocr_pipeline.py:102-155 | the loop keeps the number of blocks and leaves the blocks it has not reached as read |
| PictureOcr.ProcessBlocks | apps/a_ocr/tools/picture_ocr_pipeline.py:99-155 | the loop over blocks computes the specification |
| PictureOcr.PageErrSticks | apps/a_ocr/tools/picture_ocr_pipeline.py:102-155 | once a block raises, later blocks do not change the outcome |
| PictureOcr.PageAtSpec | apps/a_ocr/tools/picture_ocr_pipeline.py:99-155 | one crop path per written crop, numbered 0, 1, ... in order; the counter counts them; without `changed` the blocks are those read; a block that is not a croppable Picture is never altered |
| PictureOcr.BlockStepShape | apps/a_ocr/tools/picture_ocr_pipeline.py:102-155 | one step leaves the state as it is or writes the next numbered crop of a croppable block, touching no other block; `changed` never falls |
| PictureOcr.BlockStepAttaches | apps/a_ocr/tools/picture_ocr_pipeline.py:151-153 | a block that gains children holds them, non-empty, under `picture-children`, and `changed` is raised |
| PictureOcr.RunPageWrites | apps/a_ocr/tools/picture_ocr_pipeline.py:88-158 | no file is created or deleted, no other file is touched, and the layout file is rewritten only when it held a list and some block gained children |
| PictureOcr.RunPipeline | apps/a_ocr/tools/picture_ocr_pipeline.py:84-160 | the loop over pages computes the specification |
| PictureOcr.RunPagesErrSticks | apps/a_ocr/tools/picture_ocr_pipeline.py:88-158 | an error on one page ends the run with that error |
| PictureOcr.RunPagesFrame | apps/a_ocr/tools/picture_ocr_pipeline.py:84-160 | the run creates and deletes no file and rewrites only the pages' layout files |
| PyValue.Load | apps/d_geo_compute/planner.py:8-9 | `json.load` of a path succeeds exactly when the file exists and holds a parseable document, and returns that document |
| PyValue.Dump | apps/d_geo_compute/planner.py:203 | `json.dump` to a path creates or overwrites that path and no other file |
| PyValue.DumpLoad | apps/d_geo_compute/planner.py:203 | loading what was dumped gives the value back when it is serialisable, and a decode error otherwise (a half-written file) |
| PyValue.SetDefault | apps/c_geo_codegen/spec_codegen.py:89-92 | `setdefault` keeps a present key and its value, and otherwise appends the default and returns it |
| PyValue.LookupSetDefault | apps/c_geo_codegen/spec_codegen.py:89-92 | after `setdefault` only the missing key reads differently, as the default |
| PyValue.LookupPut | apps/c_geo_codegen/spec_codegen.py:97-101 | after `d[k] = v` key k reads v and every other key reads as before |
| PyValue.PutSame | pipelines/utils.py:74 | assigning a key the value it already holds leaves the dict unchanged |
| PyText.Strip | pipelines/utils.py:51 | `str.strip` leaves no whitespace at either end |
| PyText.FindFrom | pipelines/utils.py:23 | `str.find` from a start returns the first match at or after it, or None exactly when there is none |
| PyText.ReplaceAll | pipelines/utils.py:40 | `str.replace` leaves text without the pattern unchanged |
| PyText.SplitJoinSpace | pipelines/utils.py:43 | splitting words joined by single spaces gives the words back |
| PyText.CollapseIdempotent | pipelines/utils.py:43 | `" ".join(s.split())` is idempotent |
| PyText.IntToStringRoundTrip | pipelines/stages.py:243 | `int(str(i)) == i` for every integer |
| Numerics.RealMod | apps/d_compute/geo_compute/angle_rules.py:11 | Python's float `%` with a positive modulus lies in [0, m) and differs from x by a multiple of m |
| Numerics.Trunc | apps/a_ocr/tools/picture_ocr_pipeline.py:38 | `int(x)` truncates toward zero |
| Numerics.RoundHalfEven | apps/b_graphsampling/anchor_ir.py:241 | `round(x)` is the nearest integer, ties going to the even one |
| PyValue.Get | apps/b_graphsampling/router.py:19 | `d.get(k, default)` raises AttributeError exactly on a non-dict, and otherwise returns the key's value or the default |
| PyValue.Index | apps/d_geo_compute/planner.py:15 | `v[k]` returns the key's value, raises KeyError for a missing key, and fails on a non-dict |
| PyValue.V3 | apps/d_geo_compute/geom_utils.py:8 | `v3(*v)` accepts two or three coordinates and gives a 3-vector, z = 0 when only two were given |
| PyValue.ToList | apps/c_geo_codegen/spec_codegen.py:97-98 | `list(v)` keeps a list as it is and always yields a list |
| PyValue.ToListIfArray | apps/d_geo_compute/planner.py:97 | `v.tolist() if hasattr(v, 'tolist') else v` never leaves a numpy array |
| PyText.ParseInt | apps/a_ocr/tools/picture_ocr_pipeline.py:38 | `int(s)` accepts only text that is not blank after stripping |
| PyText.ParseIntSpec | apps/a_ocr/tools/picture_ocr_pipeline.py:38 | `int(s)` succeeds exactly when the stripped text is decimal digits with an optional sign, and then gives their value, negated after `-` |
| PyText.NatToStringValue | pipelines/stages.py:243 | the decimal digits of `str(n)` denote n |

## Left out

- OCR, language-model calls, sympy and manim: the modelled code only passes their results along, so they are parameters (`llm`, `gen`, the second OCR pass in `PictureOcr.Env`) or stop at the boundary (the bodies of stages 1 to 5 in pipelines/stages.py, the drawing in `construct` of scene_runtime.py, the `make_angle_*` and `label_dual` helpers of angle_rules.py).
- Potrace, OpenCV and svgpathtools: an SVG path is its bounding box and length, its arc-length samples come from a `Sampler` parameter, and the Hough axis hints of `build_anchor_item` are an input list; the raster read is an optional image size.
- Floating point: coordinates and angles are exact reals; round-off and whether the EPS tolerances are adequate are not modelled. `round(x, 2)` is the exact rounding of the real value.
- Trigonometry, square roots, `arctan2`, `hypot` and `float()` of text are fields of `Numerics.Host`; the only property assumed of them is that `hypot` is positive on a non-zero vector (`AnchorIr.NormPositive`), which the RDP simplifier needs for its divisions.
- Python's int/float distinction: every number is `Num(real)`, so `json.dump` output does not distinguish `1` from `1.0`.
- File I/O: the file system is a map from path to JSON document; encodings, permissions, partial writes other than the one `json.dump` leaves when it raises, `shutil.copy2` of the crop JSON, `shutil.rmtree` of the temporary folder and the crop images themselves are not part of it (the crop paths are recorded in `PictureOcr.PageState.crops`).
- Directory listings are parameters: `os.listdir` order in router.py and the sorted glob of spec files in apps/d_geo_compute/planner.py are given as sequences.
- Clocks: `datetime.utcnow().isoformat()` is the parameter `now`, one value per call; the source reads the clock once per image in `generate_specs_for_all_images`, so two images of one run may carry different timestamps there.
- Aliasing: `template.copy()` in `generate_spec` is shallow, so the caller's nested `meta` dict is mutated too; the model returns new values and does not capture that side effect on the caller's template.
- Printing and logging (`print`, `logging.warning`) are not modelled.
- Outcomes.Message: the texts of exceptions raised by Python or its libraries are not Python's; a TypeError, AttributeError, IndexError or JSONDecodeError shows as its class name, and a KeyError on a non-string key is quoted like a string key. Only texts the modelled code writes itself (and `float()`'s ValueError for text without quote or escape characters, the division by zero and the missing file) are spelled as Python spells them.
- SaveFields: on a failed save the message is "Failed to save result: " followed by `Outcomes.Message` of the error, so for a result `json.dump` cannot serialise it reads "Failed to save result: TypeError" where Python writes "Object of type ndarray is not JSON serializable"; `GeoPipeline.ErrorDict` and `GeoPipeline.ErrorEntry` carry the same placeholder texts.
- PlanAndSolve: the NotImplementedError for an unknown type renders the type with `PyValue.Show`, which spells out strings, None and booleans but writes a number, list or dict as "<value>" instead of its `repr`.
- Case mapping is ASCII only (`str.upper`/`str.lower` of non-ASCII letters), and `int()` of text accepts only an optional sign and decimal digits (no underscores or other Unicode digits).
- `json.loads` in pipelines/utils.py and pipelines/stages.py is a `Decoder` parameter, and the regex-based repair of a job array that does not parse is a `Repairer` parameter.
- PictureOcr.CropSave: requires a four-element box, the only kind `run_pipeline` passes it (line 106); `map(int, bbox)` on other lengths raising is not modelled.
- SceneRuntime.ResolveDir: numpy's `np.array(val, dtype=float)` turns a None item into NaN, so `resolve_dir([None, 1])` returns (nan, 1.0, 0.0); the model's numbers have no NaN, so there it raises TypeError, as `float(None)` does. `SceneRuntime.SizedDir` differs in the same way.
- AnchorIr.AnchorItem: the record keeps only the fields that vary; the constant ones of the item written at apps/b_graphsampling/anchor_ir.py:300-327 are left out: category "Picture", type "raster_with_anchors", the tolerances {pos_px 1.0, ang_deg 1.0, len_px 2.0}, the empty curves, points and text_boxes lists, and each edge's conf 0.90. The `file://` uri is kept only as which image it names, the crop or the input (`fromCrop`).
- PictureOcr.Env: the folder and stem used to name crops are fields given per page; in the source they are `Path(layout_json).parent` and `.stem` (apps/a_ocr/tools/picture_ocr_pipeline.py:93-94), and the model does not tie them to the page's layout path, since path parsing is not modelled.
- AnchorIr.BuildAnchorItem: requires every polyline to be non-empty, as `svg_to_polylines` produces them; an empty polyline's IndexError is not modelled.
- Exceptions from `DotsOCRParser.parse_file` and from `Image.open` are not modelled; a crop that cannot be written is the `saves` parameter returning false.
- `apps/d_compute/geo_compute/planner.py` imports its own `geom_utils` and `templates`, which are not part of this model; both planners are modelled over apps/d_geo_compute/geom_utils.py and libs/geo/templates.py.
- The comment at libs/geo/templates.py:32 gives E = (6, 2√3) for side 8 while line 34 computes (6, 4√3); the model follows the code (`Templates.SquareSideEight`).

## Findings

| source | as written | input that shows it | evidently intended | confidence | as-written member | corrected member |
|---|---|---|---|---|---|---|
| apps/d_geo_compute/planner.py:181-203 | `solve_in_problem_dir` stores the solved points as numpy arrays and then calls `json.dump`, which raises on them; the handler reports "Failed to save result" and leaves a truncated geo_result.json | a problem folder whose spec.json solves (e.g. a `square_with_ADE` spec) and has no geo_result.json | convert the points with `.tolist()` as `solve_all_specs_in_problem_dir` does, so the solve is saved and reported as solved | not executed | GeoPipeline.SolveInProblemDir | GeoPipeline.SolveInProblemDirCorrected |
| apps/d_compute/geo_compute/scene_runtime.py:54 | the arms of an angle extra are read as `pts[ex]["p"]` and `pts[ex]["q"]`, indexing the points dict with the extra's own dict, which raises TypeError (a dict is unhashable) | any spec with an extra `{"type": "angle", "apex": "B", "p": "A", "q": "C", "deg": 90}` | read the arms as `pts[ex["p"]]` and `pts[ex["q"]]`, as the apex is read | not executed | SceneRuntime.AngleArmsAsWritten | SceneRuntime.AngleArms |
