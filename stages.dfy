/**
 * The stand-alone stage runner (pipelines/stages.py): its own copy of the
 * bracket scan, its own job extraction — ids are plain positions and
 * targets are left as written — and the dispatch on a stage number. The
 * stage bodies themselves (OCR, graph sampling, code generation, CAS,
 * rendering) are calls into other programs and are not modelled.
 */
module Stages {
  import opened Outcomes
  import opened PyText
  import opened PyValue
  import opened CasText

  /** `_find_balanced_json_array(text, start_idx)`, a `for j in range(i, len(text))`
      scan. It agrees with the orchestrator's helper on every input. */
  method FindBalancedJsonArray(text: string, start: nat) returns (r: Result<string>)
    ensures r == BalancedArray(text, start)
  {
    var found := FindFrom(text, "[", start);
    if found.None? {
      return Err(RuntimeError(NoOpenMessage));
    }
    var i := found.value;
    var depth := 0;
    for j := i to |text|
      invariant CloseFrom(text, j, depth) == CloseFrom(text, i, 0)
    {
      var c := text[j];
      if c == '[' {
        depth := depth + 1;
      } else if c == ']' {
        depth := depth - 1;
        if depth == 0 {
          return Ok(text[i..j + 1]);
        }
      }
    }
    return Err(RuntimeError(NoCloseMessage));
  }

  /** `j.setdefault("id", str(idx))` for the job at 1-based position `idx`. */
  function StageLabel(job: Value, idx: nat): Result<Value> {
    if !job.Dict? then Err(AttributeError)
    else Ok(Dict(SetDefault(job.entries, "id", Str(NatToString(idx))).0))
  }

  /** Only dicts can be labelled; a labelled job keeps its id or receives
      its position, and every other key reads as before. */
  lemma StageLabelSpec(job: Value, idx: nat)
    ensures StageLabel(job, idx).Ok? <==> job.Dict?
    ensures StageLabel(job, idx).Ok? ==>
              var out := StageLabel(job, idx).value;
              && out.Dict?
              && Lookup(out.entries, "id")
                 == (if HasKey(job.entries, "id") then Lookup(job.entries, "id") else Some(Str(NatToString(idx))))
              && forall k :: k != "id" ==> Lookup(out.entries, k) == Lookup(job.entries, k)
  {
    if job.Dict? {
      LookupSpec(job.entries, "id");
      LookupSetDefault(job.entries, "id", Str(NatToString(idx)), "id");
      forall k | k != "id"
        ensures Lookup(SetDefault(job.entries, "id", Str(NatToString(idx))).0, k) == Lookup(job.entries, k)
      {
        LookupSetDefault(job.entries, "id", Str(NatToString(idx)), k);
      }
    }
  }

  /** `json.loads` that raises on text it cannot parse. */
  function Parse(decode: Decoder, json: string): (r: Result<seq<Value>>)
    ensures r.Ok? <==> decode(json).Some?
    ensures r.Err? ==> r.error == JsonDecodeError
  {
    match decode(json)
    case Some(jobs) => Ok(jobs)
    case None => Err(JsonDecodeError)
  }

  /** `_extract_jobs_and_code(code_text)`. */
  function StageExtract(decode: Decoder, codeText: string): (r: Result<(seq<Value>, string)>)
    ensures !Contains(StripCodeFences(codeText), Marker) ==> r == Err(RuntimeError(NoMarkerMessage))
    ensures r.Ok? ==> exists m: nat | FirstMatch(StripCodeFences(codeText), Marker, m) ::
                        r.value.1 == Strip(StripCodeFences(codeText)[..m])
  {
    var text := StripCodeFences(codeText);
    var parts :- SplitAtMarker(text);
    var json :- BalancedArray(parts.1, 0);
    var raw :- Parse(decode, json);
    var jobs :- LabelPrefix(StageLabel, raw, |raw|);
    Ok((jobs, parts.0))
  }

  method ExtractJobsAndCode(decode: Decoder, codeText: string) returns (r: Result<(seq<Value>, string)>)
    ensures r == StageExtract(decode, codeText)
  {
    var text := StripCodeFences(codeText);
    var parts := SplitAtMarker(text);
    if parts.Err? {
      return Err(parts.error);
    }
    var json := FindBalancedJsonArray(parts.value.1, 0);
    if json.Err? {
      return Err(json.error);
    }
    var raw := Parse(decode, json.value);
    if raw.Err? {
      return Err(raw.error);
    }
    var jobs := LabelJobs(StageLabel, raw.value);
    if jobs.Err? {
      return Err(jobs.error);
    }
    return Ok((jobs.value, parts.value.0));
  }

  /** Wherever this extractor succeeds, the orchestrator's extractor gives
      the same jobs and code, as long as the parsed jobs already carry an id
      and an already normalised target: the extractors differ only in the
      ids they invent, the rewriting of targets and the repair of arrays
      that do not parse. */
  lemma ExtractorsAgree(decode: Decoder, repair: Repairer, codeText: string)
    requires forall json | decode(json).Some? ::
               forall k | 0 <= k < |decode(json).value| :: Prepared(decode(json).value[k])
    ensures StageExtract(decode, codeText).Ok? ==>
              ExtractJobs(decode, repair, codeText) == StageExtract(decode, codeText)
  {
    if StageExtract(decode, codeText).Ok? {
      StageExtractSteps(decode, codeText);
      var parts := SplitAtMarker(StripCodeFences(codeText)).value;
      var json := BalancedArray(parts.1, 0).value;
      var raw := decode(json).value;
      SameLabels(raw, |raw|);
      assert raw[..|raw|] == raw;
      StageExtractOf(decode, codeText, parts, json, raw);
      ExtractJobsOf(decode, repair, codeText, parts, json, raw);
    }
  }

  /** A successful extraction passed every step. */
  lemma StageExtractSteps(decode: Decoder, codeText: string)
    requires StageExtract(decode, codeText).Ok?
    ensures SplitAtMarker(StripCodeFences(codeText)).Ok?
    ensures BalancedArray(SplitAtMarker(StripCodeFences(codeText)).value.1, 0).Ok?
    ensures decode(BalancedArray(SplitAtMarker(StripCodeFences(codeText)).value.1, 0).value).Some?
  {
  }

  lemma StageExtractOf(decode: Decoder, codeText: string, parts: (string, string), json: string, jobs: seq<Value>)
    requires SplitAtMarker(StripCodeFences(codeText)) == Ok(parts)
    requires BalancedArray(parts.1, 0) == Ok(json) && decode(json) == Some(jobs)
    requires LabelPrefix(StageLabel, jobs, |jobs|) == Ok(jobs)
    ensures StageExtract(decode, codeText) == Ok((jobs, parts.0))
  {
    assert Parse(decode, json) == Ok(jobs);
  }

  lemma ExtractJobsOf(decode: Decoder, repair: Repairer, codeText: string, parts: (string, string), json: string, jobs: seq<Value>)
    requires SplitAtMarker(StripCodeFences(codeText)) == Ok(parts)
    requires BalancedArray(parts.1, 0) == Ok(json) && decode(json) == Some(jobs)
    requires LabelPrefix(LabelJob, jobs, |jobs|) == Ok(jobs)
    ensures ExtractJobs(decode, repair, codeText) == Ok((jobs, parts.0))
  {
    assert RawJobs(decode, repair, json) == Ok(jobs);
  }

  /** A job that is a dict with an id and a target that rewriting leaves
      unchanged. */
  predicate Prepared(job: Value) {
    && job.Dict?
    && HasKey(job.entries, "id")
    && NormalizeTarget(GetOr(job.entries, "target_expr", Str(""))) == Ok(GetOr(job.entries, "target_expr", Str("")))
    && HasKey(job.entries, "target_expr")
  }

  lemma PreparedLabels(job: Value, idx: nat)
    requires Prepared(job)
    ensures StageLabel(job, idx) == LabelJob(job, idx) == Ok(job)
  {
    LookupSpec(job.entries, "id");
    LookupSpec(job.entries, "target_expr");
    PutSame(job.entries, "target_expr", GetOr(job.entries, "target_expr", Str("")));
  }

  lemma SameLabels(jobs: seq<Value>, n: nat)
    requires n <= |jobs| && forall k | 0 <= k < |jobs| :: Prepared(jobs[k])
    ensures LabelPrefix(StageLabel, jobs, n) == LabelPrefix(LabelJob, jobs, n) == Ok(jobs[..n])
  {
    forall k | 0 <= k < |jobs|
      ensures StageLabel(jobs[k], k + 1) == Ok(jobs[k]) && LabelJob(jobs[k], k + 1) == Ok(jobs[k])
    {
      PreparedLabels(jobs[k], k + 1);
    }
    LabelsKeep(StageLabel, jobs, n);
    LabelsKeep(LabelJob, jobs, n);
  }

  /** A labelling step that leaves every job as it is leaves the list as it is. */
  lemma {:induction false} LabelsKeep(step: Labeller, jobs: seq<Value>, n: nat)
    requires n <= |jobs| && forall k | 0 <= k < |jobs| :: step(jobs[k], k + 1) == Ok(jobs[k])
    ensures LabelPrefix(step, jobs, n) == Ok(jobs[..n])
  {
    if n > 0 {
      LabelsKeep(step, jobs, n - 1);
      assert step(jobs[n - 1], n) == Ok(jobs[n - 1]);
      assert jobs[..n] == jobs[..n - 1] + [jobs[n - 1]];
    }
  }

  // ----------------------------------------------------------- dispatch

  /** The five stages `run_stage` can start. */
  datatype Stage = Ocr | GraphSampling | Codegen | Cas | Render

  function StageNumber(s: Stage): (n: int)
    ensures 1 <= n <= 5
  {
    match s
    case Ocr => 1
    case GraphSampling => 2
    case Codegen => 3
    case Cas => 4
    case Render => 5
  }

  function InvalidStageMessage(n: int): string {
    "Invalid stage number: " + IntToString(n) + ". Must be 1-5."
  }

  /** `run_stage(stage_num)`: the stage it starts, or the error it raises. */
  function RunStage(n: int): (r: Result<Stage>)
    ensures r.Ok? <==> 1 <= n <= 5
    ensures r.Ok? ==> StageNumber(r.value) == n
    ensures r.Err? ==> r.error == ValueError(InvalidStageMessage(n))
  {
    if n == 1 then Ok(Ocr)
    else if n == 2 then Ok(GraphSampling)
    else if n == 3 then Ok(Codegen)
    else if n == 4 then Ok(Cas)
    else if n == 5 then Ok(Render)
    else Err(ValueError(InvalidStageMessage(n)))
  }

  /** Every stage is reached through its own number. */
  lemma RunStageNumber(s: Stage)
    ensures RunStage(StageNumber(s)) == Ok(s)
  {
  }
}
