/** What a run of the experiment hands to whom, what it freezes under which name, and what its log says. */
module ExperimentRecord {
  import opened Experiment
  import opened FrozenPayload
  import opened Results

  /** Each callable gets exactly the answers it is due: v numbers them by the step that got them. */
  ghost predicate RightArguments(call: Call, v: seq<Value>) {
    match call.dep
    case VerifySources => call.args == []
    case FitModel => |v| > 0 && call.args == [v[0]]
    case FreezeCandidates => call.args == []
    case LoadMapping => |v| > 2 && call.args == [v[1], v[2]]
    case BuildMapping => |v| > 3 && call.args == [v[1], v[2], v[3]]
    case LoadValidation => |v| > 2 && call.args == [v[1], v[2]]
    case ReportSensitivity => |v| > 5 && call.args == [v[4], v[1], v[2], v[3], v[5]]
    case RebuildMapping => |v| > 5 && call.args == [v[1], v[2], v[3], v[5]]
    case SelectBaseline => |v| > 5 && call.args == [v[2], v[3], v[5]]
    case LoadTest => |v| > 9 && |call.args| == 2 && call.args[0] == v[9]
    case RunComparisons => |v| > 10 && call.args == [v[10], v[1], v[7], v[8]]
    case Publish => |v| > 7 && |call.args| == 3 && call.args[1] == v[1] && call.args[2] == v[7]
  }

  /** The callable of the i-th call. */
  function Due(i: nat): Dep {
    match i
    case 0 => VerifySources
    case 1 => FitModel
    case 2 => FreezeCandidates
    case 3 => LoadMapping
    case 4 => BuildMapping
    case 5 => LoadValidation
    case 6 => ReportSensitivity
    case 7 => RebuildMapping
    case 8 => SelectBaseline
    case 9 => LoadTest
    case 10 => RunComparisons
    case _ => Publish
  }

  /** Where the answer of the i-th call is kept: the freeze, which no callable answers, is the tenth value. */
  function KeptAt(i: nat): nat {
    if i < 9 then i else i + 1
  }

  /** Every call so far went to the callable that was due, with what it was due, and its answer is kept as given. */
  ghost predicate Recorded(p: Progress, oracle: Oracle) {
    && (forall i :: 0 <= i < |p.calls| ==> p.calls[i].dep == Due(i) && RightArguments(p.calls[i], p.values))
    && (forall i :: 0 <= i < |p.calls| && KeptAt(i) < |p.values| ==>
          oracle(p.calls[..i], p.calls[i]) == Ok(p.values[KeptAt(i)]))
  }

  /** The frozen payload: each artifact under its own name, as its boundary gives it, and nothing else. */
  ghost predicate Freezes(payload: Value, v: seq<Value>, env: Environment)
    requires |v| >= 9
  {
    && payload.Mapping?
    && payload.fields.Keys ==
       {Name("freeze_schema_version"), Name("report_schema_version"), Name("model"), Name("candidate_manifest"),
        Name("evidence"), Name("mapping"), Name("global_fixed_baseline"), Name("profile"), Name("chronology")}
    && payload.fields[Name("freeze_schema_version")] == Text("three-day-pre-test-freeze-v1")
    && payload.fields[Name("report_schema_version")] == Text("three-day-daily-k4-report-v1")
    && env.boundary(v[1]) == Ok(payload.fields[Name("model")])
    && env.boundary(v[2]) == Ok(payload.fields[Name("candidate_manifest")])
    && env.mappingBoundary(v[7]) == Ok(payload.fields[Name("mapping")])
    && env.boundary(v[8]) == Ok(payload.fields[Name("global_fixed_baseline")])
    && payload.fields[Name("profile")] == env.profile && payload.fields[Name("chronology")] == env.chronology
    && FreezesEvidence(payload.fields[Name("evidence")], v, env)
  }

  ghost predicate FreezesEvidence(evidence: Value, v: seq<Value>, env: Environment)
    requires |v| >= 9
  {
    && evidence.Mapping? && evidence.fields.Keys == {Name("mapping"), Name("validation")}
    && env.boundary(v[3]) == Ok(evidence.fields[Name("mapping")])
    && env.boundary(v[5]) == Ok(evidence.fields[Name("validation")])
  }

  lemma PayloadFreezes(v: seq<Value>, env: Environment)
    requires |v| == 9
    ensures var payload := PayloadOf(v[1], v[2], v[3], v[5], v[7], v[8], env);
            payload.Ok? ==> Freezes(payload.value, v, env)
  {
    var payload := PayloadOf(v[1], v[2], v[3], v[5], v[7], v[8], env);
    if payload.Ok? {
      var evidence := Mapping(map[Name("mapping") := env.boundary(v[3]).value,
                                  Name("validation") := env.boundary(v[5]).value]);
      EvidenceFreezes(env.boundary(v[3]).value, env.boundary(v[5]).value, v, env);
      NineNames(env.boundary(v[1]).value, env.boundary(v[2]).value, evidence, env.mappingBoundary(v[7]).value,
                env.boundary(v[8]).value, env.profile, env.chronology);
    }
    hide FreezesEvidence;
  }

  /** A mapping under the nine names gives back what was put under each. */
  lemma NineNames(
      model: Value, manifest: Value, evidence: Value, mapping: Value, baseline: Value, profile: Value,
      chronology: Value)
    ensures var fields := map[
                Name("freeze_schema_version") := Text("three-day-pre-test-freeze-v1"),
                Name("report_schema_version") := Text("three-day-daily-k4-report-v1"),
                Name("model") := model,
                Name("candidate_manifest") := manifest,
                Name("evidence") := evidence,
                Name("mapping") := mapping,
                Name("global_fixed_baseline") := baseline,
                Name("profile") := profile,
                Name("chronology") := chronology];
            && fields[Name("freeze_schema_version")] == Text("three-day-pre-test-freeze-v1")
            && fields[Name("report_schema_version")] == Text("three-day-daily-k4-report-v1")
            && fields[Name("model")] == model && fields[Name("candidate_manifest")] == manifest
            && fields[Name("evidence")] == evidence && fields[Name("mapping")] == mapping
            && fields[Name("global_fixed_baseline")] == baseline && fields[Name("profile")] == profile
            && fields[Name("chronology")] == chronology
  {
  }

  lemma EvidenceFreezes(mapping: Value, validation: Value, v: seq<Value>, env: Environment)
    requires |v| == 9 && env.boundary(v[3]) == Ok(mapping) && env.boundary(v[5]) == Ok(validation)
    ensures FreezesEvidence(Mapping(map[Name("mapping") := mapping, Name("validation") := validation]), v, env)
  {
  }

  lemma FreezeCreatedFreezes(p: Progress, env: Environment)
    requires p.failed.None? && |p.values| == 9
    ensures var after := FreezeCreated(p, env);
            && p.values <= after.values
            && (after.failed.None? ==> |after.values| == 10 && Freezes(after.values[9], p.values, env))
            && after.calls == p.calls && |after.values| <= 10
            && (after.failed.Some? ==> after.values == p.values)
  {
    hide Freezes, PayloadOf, Freezable, Clean;
    PayloadFreezes(p.values, env);
  }

  lemma ArgumentsStay(call: Call, v: seq<Value>, w: seq<Value>)
    requires RightArguments(call, v) && v <= w
    ensures RightArguments(call, w)
  {
  }

  /** The record of one more call. */
  lemma CallRecorded(p: Progress, oracle: Oracle, after: Progress, call: Call)
    requires Recorded(p, oracle) && p.values <= after.values && after.calls == p.calls + [call]
    requires call.dep == Due(|p.calls|) && RightArguments(call, p.values)
    requires |p.values| == KeptAt(|p.calls|)
    requires |after.values| > |p.values| ==> oracle(p.calls, call) == Ok(after.values[|p.values|])
    ensures Recorded(after, oracle)
  {
    hide RightArguments, Due;
    forall i | 0 <= i < |after.calls|
      ensures after.calls[i].dep == Due(i) && RightArguments(after.calls[i], after.values)
      ensures KeptAt(i) < |after.values| ==> oracle(after.calls[..i], after.calls[i]) == Ok(after.values[KeptAt(i)])
    {
      if i < |p.calls| {
        assert after.calls[i] == p.calls[i] && after.calls[..i] == p.calls[..i];
        ArgumentsStay(p.calls[i], p.values, after.values);
      } else {
        assert after.calls[..i] == p.calls;
        ArgumentsStay(call, p.values, after.values);
      }
    }
  }

  lemma SameCallsRecorded(p: Progress, oracle: Oracle, after: Progress)
    requires Recorded(p, oracle) && p.values <= after.values && after.calls == p.calls
    requires forall i :: 0 <= i < |p.calls| ==> KeptAt(i) < |p.values|
    ensures Recorded(after, oracle)
  {
    hide RightArguments, Due;
    forall i | 0 <= i < |after.calls|
      ensures RightArguments(after.calls[i], after.values)
    {
      ArgumentsStay(p.calls[i], p.values, after.values);
    }
  }

  lemma AskedThenLeft(p: Progress, oracle: Oracle, dep: Dep, args: seq<Value>, s: nat)
    requires s < LAST && p.failed.None?
    ensures var after := Advanced(Asked(p, oracle, dep, args), s);
            && after.calls == p.calls + [Call(dep, args, p.stage)]
            && p.values <= after.values && |after.values| <= |p.values| + 1
            && (|after.values| > |p.values| ==>
                  oracle(p.calls, Call(dep, args, p.stage)) == Ok(after.values[|p.values|]))
  {
    hide StageAt, EventName, Boundary;
  }

  lemma PlainArguments(p: Progress, k: nat)
    requires Experiment.Plain(k).Some? && |p.values| == k
    ensures var (dep, indices, s) := Experiment.Plain(k).value;
            k != 9 && dep == Due(if k < 9 then k else k - 1)
            && forall stage :: RightArguments(Call(dep, Arguments(p.values, indices), stage), p.values)
  {
    var indices := Experiment.Plain(k).value.1;
    var args := Arguments(p.values, indices);
    assert |args| == |indices|;
    if |indices| > 0 { assert args[0] == p.values[indices[0]]; }
    if |indices| > 1 { assert args[1] == p.values[indices[1]]; }
    if |indices| > 2 { assert args[2] == p.values[indices[2]]; }
    if |indices| > 3 { assert args[3] == p.values[indices[3]]; }
    if |indices| > 4 { assert args[4] == p.values[indices[4]]; }
  }

  /** Once the freeze is there it is the right one. */
  ghost predicate FrozenRight(p: Progress, env: Environment) {
    |p.values| > 9 ==> Freezes(p.values[9], p.values, env)
  }

  lemma FreezesStays(v: seq<Value>, w: seq<Value>, env: Environment)
    requires |v| > 9 && v <= w && Freezes(v[9], v, env)
    ensures Freezes(w[9], w, env)
  {
  }

  lemma StepRecords(p: Progress, oracle: Oracle, env: Environment, k: nat)
    requires k < STEPS && p.failed.None? && |p.values| == k && |p.calls| == CallsBy(k)
    requires Recorded(p, oracle) && FrozenRight(p, env)
    ensures var after := Do(p, oracle, env, k); Recorded(after, oracle) && FrozenRight(after, env)
  {
    hide Recorded, RightArguments, Freezes, Asked, Advanced, FreezeCreated, Arguments, Unacceptable, Due;
    var after := Do(p, oracle, env, k);
    if Experiment.Plain(k).Some? {
      var (dep, indices, s) := Experiment.Plain(k).value;
      PlainArguments(p, k);
      AskedThenLeft(p, oracle, dep, Arguments(p.values, indices), s);
      CallRecorded(p, oracle, after, Call(dep, Arguments(p.values, indices), p.stage));
    } else if k == 5 {
      ValidationRecorded(p, oracle);
    } else if k == 9 {
      FreezeCreatedFreezes(p, env);
      var created := FreezeCreated(p, env);
      AdvancedKeeps(created, 8);
      SameCallsRecorded(p, oracle, after);
      if |after.values| > 9 {
        FreezesMore(p.values, after.values, env);
      }
    } else if k == 10 {
      TestRecorded(p, oracle, env);
    } else {
      ReportRecorded(p, oracle, env);
    }
    if k > 9 {
      StepAdds(p, oracle, env, k);
      FreezesStays(p.values, after.values, env);
    } else if k < 9 {
      StepAdds(p, oracle, env, k);
    }
  }

  lemma FreezesMore(v: seq<Value>, w: seq<Value>, env: Environment)
    requires |v| == 9 && |w| == 10 && v <= w && Freezes(w[9], v, env)
    ensures Freezes(w[9], w, env)
  {
  }

  lemma AdvancedKeeps(p: Progress, s: nat)
    requires s < LAST
    ensures Advanced(p, s).calls == p.calls && Advanced(p, s).values == p.values
  {
  }

  lemma StepAdds(p: Progress, oracle: Oracle, env: Environment, k: nat)
    requires k < STEPS && p.failed.None? && |p.values| == k
    ensures var after := Do(p, oracle, env, k); p.values <= after.values && |after.values| <= k + 1
  {
    hide Arguments, Unacceptable, FreezeOf, StageAt, EventName, Boundary;
  }

  lemma ValidationRecorded(p: Progress, oracle: Oracle)
    requires p.failed.None? && |p.values| == 5 == |p.calls| && Recorded(p, oracle)
    ensures Recorded(Asked(p, oracle, LoadValidation, Arguments(p.values, [1, 2])), oracle)
  {
    hide Recorded;
    var args := Arguments(p.values, [1, 2]);
    assert args == [p.values[1], p.values[2]];
    CallRecorded(p, oracle, Asked(p, oracle, LoadValidation, args), Call(LoadValidation, args, p.stage));
  }

  lemma TestRecorded(p: Progress, oracle: Oracle, env: Environment)
    requires p.failed.None? && |p.values| == 10 && |p.calls| == 9 && Recorded(p, oracle)
    ensures Recorded(TestRead(p, oracle, env), oracle)
  {
    hide Recorded, Unacceptable, Advanced;
    var args := [p.values[9], Text(env.hash(p.values[9]))];
    var after := TestRead(p, oracle, env);
    if p.stage != PreTestFrozen {
      AllKept(p, oracle);
      SameCallsRecorded(p, oracle, after);
    } else {
      AdvancedKeeps(Asked(p, oracle, LoadTest, args), 9);
      CallRecorded(p, oracle, after, Call(LoadTest, args, p.stage));
    }
  }

  lemma AllKept(p: Progress, oracle: Oracle)
    requires |p.values| == 10 && |p.calls| == 9
    ensures forall i :: 0 <= i < |p.calls| ==> KeptAt(i) < |p.values|
  {
  }

  lemma ReportRecorded(p: Progress, oracle: Oracle, env: Environment)
    requires p.failed.None? && |p.values| == 12 && |p.calls| == 11 && Recorded(p, oracle)
    ensures Recorded(ReportPublished(p, oracle, env), oracle)
  {
    hide Recorded, Asked, Advanced;
    var report, after := env.report(p.values, p.events), ReportPublished(p, oracle, env);
    if report.Err? {
      SameCallsRecorded(p, oracle, after);
    } else {
      var args := [report.value, p.values[1], p.values[7]];
      AskedThenLeft(p, oracle, Publish, args, 11);
      CallRecorded(p, oracle, after, Call(Publish, args, p.stage));
    }
  }

  lemma {:induction false} RunRecords(oracle: Oracle, env: Environment, k: nat)
    requires k <= STEPS
    ensures var p := Execution(oracle, env, FRESH, k); Recorded(p, oracle) && FrozenRight(p, env)
  {
    hide Do, Sound, Freezes, RightArguments;
    if k == 0 {
      assert FRESH.calls == [];
    } else {
      var p := Execution(oracle, env, FRESH, k - 1);
      RunRecords(oracle, env, k - 1);
      RunIsSound(oracle, env, k - 1);
      if p.failed.Some? {
        FailedDoesNothing(p, oracle, env, k - 1);
      } else {
        SoundCounts(p, env, k - 1);
        StepRecords(p, oracle, env, k - 1);
      }
    }
  }

  lemma SoundCounts(p: Progress, env: Environment, k: nat)
    requires Sound(p, env, k) && p.failed.None?
    ensures |p.values| == k && |p.calls| == CallsBy(k)
  {
  }

  /** However its dependencies answer or fail: every call of a run goes to the callable that is due, with exactly the
      artifacts it is due, its answer is kept unchanged, and what is frozen is each artifact under its own name. */
  lemma RunIsRecorded(oracle: Oracle, env: Environment)
    ensures var end := Execution(oracle, env, FRESH, STEPS);
            && Recorded(end, oracle)
            && (|end.values| > 9 ==> Freezes(end.values[9], end.values, env))
  {
    hide Execution, Recorded, Freezes;
    RunRecords(oracle, env, STEPS);
  }

  const COMPLETE_LOG: seq<Event> := [
    Event("sources_verified", 1, SourcesVerified, "2021-01-01T00:00:00Z"),
    Event("model_frozen", 2, ModelFrozen, "2025-06-30T00:00:00Z"),
    Event("candidate_manifest_frozen", 3, CandidatesFrozen, "2025-06-30T00:00:00Z"),
    Event("mapping_evidence_loaded", 4, MappingEvidenceLoaded, "2025-07-07T00:00:00Z"),
    Event("initial_strict_mapping_built", 5, InitialStrictMappingBuilt, "2026-01-01T00:00:00Z"),
    Event("validation_sensitivity_reported", 6, ValidationReported, "2026-04-01T00:00:00Z"),
    Event("final_strict_mapping_frozen", 7, FinalMappingFrozen, "2026-04-01T00:00:00Z"),
    Event("global_fixed_baseline_frozen", 8, GlobalBaselineFrozen, "2026-04-01T00:00:00Z"),
    Event("pre_test_freeze_created", 9, PreTestFrozen, "2026-04-01T00:00:00Z"),
    Event("first_test_read", 10, TestLoaded, "2026-04-04T00:00:00Z"),
    Event("test_comparisons_run", 11, ComparisonsRun, "2026-07-01T00:00:00Z"),
    Event("published", 12, Published, "publication-plan-v1")]

  /** What a run has logged: the whole of this when nothing failed, otherwise a proper prefix of it. */
  lemma LogReads(oracle: Oracle, env: Environment)
    ensures var end := Execution(oracle, env, FRESH, STEPS);
            && end.events <= COMPLETE_LOG
            && (end.failed.None? <==> end.events == COMPLETE_LOG)
  {
    hide Execution, COMPLETE_LOG;
    LogIsPrefixOfChain(oracle, env);
    var end := Execution(oracle, env, FRESH, STEPS);
    var s: nat :| s <= LAST && OnChain(end, s) && (end.failed.None? <==> s == LAST);
    LogIs(s);
  }

  lemma {:induction false} LogIs(s: nat)
    requires s <= LAST
    ensures |COMPLETE_LOG| == LAST && Log(s) == COMPLETE_LOG[..s]
  {
    if s > 0 {
      LogIs(s - 1);
      EventReads(s);
      hide COMPLETE_LOG, EventName, StageAt, Boundary;
    }
  }

  lemma EventReads(s: nat)
    requires 0 < s <= LAST
    ensures COMPLETE_LOG[s - 1] == Event(EventName(s - 1), s, StageAt(s), Boundary(StageAt(s)))
  {
    hide Boundary;
    BoundariesRead(s);
  }

  lemma BoundariesRead(s: nat)
    requires 0 < s <= LAST
    ensures COMPLETE_LOG[s - 1].boundary == Boundary(StageAt(s))
  {
  }

  /** The named entry of a mapping, if it is there and not None. */
  function Entry(v: Value, key: string): Option<Value> {
    if v.Mapping? && Name(key) in v.fields && v.fields[Name(key)] != Null then Some(v.fields[Name(key)]) else None
  }

  function Nested(v: Value, key: string, inner: string): Option<Value> {
    if v.Mapping? && Name(key) in v.fields then Entry(v.fields[Name(key)], inner) else None
  }

  /** A finished run's Test result is a mapping with a provenance that repeats the digest of the freeze and each of its
      five identities: the same value, or none where the freeze has none. */
  lemma TestRepeatsTheFreeze(oracle: Oracle, env: Environment)
    requires Execution(oracle, env, FRESH, STEPS).failed.None?
    ensures var v := Execution(oracle, env, FRESH, STEPS).values;
            && |v| == STEPS && v[10].Mapping? && Name("provenance") in v[10].fields
            && var p, f := v[10].fields[Name("provenance")], v[9];
               && Entry(p, "pre_test_freeze_hash") == Some(Text(env.hash(f)))
               && Entry(p, "model_artifact_hash") == Nested(f, "model", "artifact_hash")
               && Entry(p, "candidate_manifest_hash") == Nested(f, "candidate_manifest", "manifest_hash")
               && Entry(p, "candidate_universe_hash") == Nested(f, "candidate_manifest", "candidate_universe_hash")
               && Entry(p, "mapping_artifact_hash") == Nested(f, "mapping", "artifact_hash")
               && Entry(p, "profile_id") == Nested(f, "profile", "profile_id")
  {
    hide Execution, Compatible, IsHash;
    TestResultBelongsToFreeze(oracle, env);
    var v := Execution(oracle, env, FRESH, STEPS).values;
    var p := Field(v[10], "provenance").value;
    forall k | 0 <= k < |IDENTITIES|
      ensures Entry(p, IDENTITIES[k].0) == Nested(v[9], IDENTITIES[k].1, IDENTITIES[k].2)
    {
      CompatibleIsSame(v[9], p, IDENTITIES[k]);
    }
    assert |IDENTITIES| == 5;
    assert Entry(p, IDENTITIES[0].0) == Nested(v[9], IDENTITIES[0].1, IDENTITIES[0].2);
    assert Entry(p, IDENTITIES[1].0) == Nested(v[9], IDENTITIES[1].1, IDENTITIES[1].2);
    assert Entry(p, IDENTITIES[2].0) == Nested(v[9], IDENTITIES[2].1, IDENTITIES[2].2);
    assert Entry(p, IDENTITIES[3].0) == Nested(v[9], IDENTITIES[3].1, IDENTITIES[3].2);
    assert Entry(p, IDENTITIES[4].0) == Nested(v[9], IDENTITIES[4].1, IDENTITIES[4].2);
  }

  lemma CompatibleIsSame(payload: Value, provenance: Value, identity: (string, string, string))
    requires Compatible(payload, provenance, identity)
    ensures Entry(provenance, identity.0) == Nested(payload, identity.1, identity.2)
  {
  }
}
