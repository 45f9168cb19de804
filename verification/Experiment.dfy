/** The staged experiment: everything is selected and frozen before the Test loader may run. */
module Experiment {
  import opened FrozenPayload
  import opened Results

  datatype Stage =
    | Initial | SourcesVerified | ModelFrozen | CandidatesFrozen | MappingEvidenceLoaded | InitialStrictMappingBuilt
    | ValidationReported | FinalMappingFrozen | GlobalBaselineFrozen | PreTestFrozen | TestLoaded | ComparisonsRun
    | Published

  /** The chain of stages, in order. */
  function StageAt(s: nat): Stage {
    match s
    case 0 => Initial
    case 1 => SourcesVerified
    case 2 => ModelFrozen
    case 3 => CandidatesFrozen
    case 4 => MappingEvidenceLoaded
    case 5 => InitialStrictMappingBuilt
    case 6 => ValidationReported
    case 7 => FinalMappingFrozen
    case 8 => GlobalBaselineFrozen
    case 9 => PreTestFrozen
    case 10 => TestLoaded
    case 11 => ComparisonsRun
    case _ => Published
  }

  const LAST: nat := 12

  /** The event that leaves the s-th stage of the chain. */
  function EventName(s: nat): string {
    match s
    case 0 => "sources_verified"
    case 1 => "model_frozen"
    case 2 => "candidate_manifest_frozen"
    case 3 => "mapping_evidence_loaded"
    case 4 => "initial_strict_mapping_built"
    case 5 => "validation_sensitivity_reported"
    case 6 => "final_strict_mapping_frozen"
    case 7 => "global_fixed_baseline_frozen"
    case 8 => "pre_test_freeze_created"
    case 9 => "first_test_read"
    case 10 => "test_comparisons_run"
    case _ => "published"
  }

  function Boundary(stage: Stage): string {
    match stage
    case Initial => ""
    case SourcesVerified => "2021-01-01T00:00:00Z"
    case ModelFrozen => "2025-06-30T00:00:00Z"
    case CandidatesFrozen => "2025-06-30T00:00:00Z"
    case MappingEvidenceLoaded => "2025-07-07T00:00:00Z"
    case InitialStrictMappingBuilt => "2026-01-01T00:00:00Z"
    case ValidationReported => "2026-04-01T00:00:00Z"
    case FinalMappingFrozen => "2026-04-01T00:00:00Z"
    case GlobalBaselineFrozen => "2026-04-01T00:00:00Z"
    case PreTestFrozen => "2026-04-01T00:00:00Z"
    case TestLoaded => "2026-04-04T00:00:00Z"
    case ComparisonsRun => "2026-07-01T00:00:00Z"
    case Published => "publication-plan-v1"
  }

  datatype Event = Event(name: string, number: nat, stage: Stage, boundary: string)

  datatype Failure =
    | OutOfOrder(expected: Stage, found: Stage)
    | Dependency(message: string)
    | Payload(error: PayloadError)
    | FreezeRequired
    | NoTestResult
    | BadProvenance(key: string)

  datatype Dep =
    | VerifySources | FitModel | FreezeCandidates | LoadMapping | BuildMapping | LoadValidation | ReportSensitivity
    | RebuildMapping | SelectBaseline | LoadTest | RunComparisons | Publish

  /** Which callables may touch Test data. */
  predicate TestSide(dep: Dep) {
    dep.LoadTest? || dep.RunComparisons? || dep.Publish?
  }

  datatype Call = Call(dep: Dep, args: seq<Value>, stage: Stage)

  /** The callables: their answers, or failures, may depend on everything called before. */
  type Oracle = (seq<Call>, Call) -> Result<Value, string>

  /** The code around them: canonical payloads, digests, the profile without its Test interval, and the report. */
  datatype Environment = Environment(
    boundary: Value -> Result<Value, string>,
    mappingBoundary: Value -> Result<Value, string>,
    hash: Value -> string,
    profile: Value,
    chronology: Value,
    report: (seq<Value>, seq<Event>) -> Result<Value, string>)

  class ExperimentState {
    var stage: Stage
    var events: seq<Event>

    constructor ()
      ensures stage == Initial && events == []
    {
      stage, events := Initial, [];
    }

    /** One step of the chain, refused without effect in any other stage. */
    method Advance(expected: Stage, target: Stage, name: string) returns (refused: Option<Failure>)
      modifies this
      ensures (stage, events, refused) == AdvanceOf(old(stage), old(events), expected, target, name)
    {
      if stage != expected {
        return Some(OutOfOrder(expected, stage));
      }
      stage := target;
      events := events + [Event(name, |events| + 1, target, Boundary(target))];
      return None;
    }
  }

  function AdvanceOf(stage: Stage, events: seq<Event>, expected: Stage, target: Stage, name: string)
    : (r: (Stage, seq<Event>, Option<Failure>))
  {
    if stage != expected then (stage, events, Some(OutOfOrder(expected, stage)))
    else (target, events + [Event(name, |events| + 1, target, Boundary(target))], None)
  }

  /** Where a run stands: its stage and events, the calls it made, their answers, and why it stopped. */
  datatype Progress = Progress(
    stage: Stage, events: seq<Event>, calls: seq<Call>, values: seq<Value>, failed: Option<Failure>)

  // ---------------------------------------------------------------- the steps of a run

  function Fail(p: Progress, failure: Failure): Progress {
    p.(failed := Some(failure))
  }

  /** Calls a dependency. */
  function Asked(p: Progress, oracle: Oracle, dep: Dep, args: seq<Value>): Progress {
    var call := Call(dep, args, p.stage);
    var after := p.(calls := p.calls + [call]);
    match oracle(p.calls, call)
    case Ok(value) => after.(values := p.values + [value])
    case Err(message) => Fail(after, Dependency(message))
  }

  /** Leaves the s-th stage of the chain. */
  function Advanced(p: Progress, s: nat): Progress
    requires s < LAST
  {
    if p.failed.Some? then p
    else
      var (stage, events, refused) := AdvanceOf(p.stage, p.events, StageAt(s), StageAt(s + 1), EventName(s));
      Progress(stage, events, p.calls, p.values, refused)
  }

  /** The payload of the freeze, from the model, manifest, evidence, final mapping and baseline. */
  function PayloadOf(
    model: Value, manifest: Value, mappingEvidence: Value, validation: Value, mapping: Value, baseline: Value,
    env: Environment): Result<Value, string>
  {
    var frozenMapping :- env.mappingBoundary(mapping);
    var frozenModel :- env.boundary(model);
    var frozenManifest :- env.boundary(manifest);
    var frozenEvidence :- env.boundary(mappingEvidence);
    var frozenValidation :- env.boundary(validation);
    var frozenBaseline :- env.boundary(baseline);
    Ok(Mapping(map[
        Name("freeze_schema_version") := Text("three-day-pre-test-freeze-v1"),
        Name("report_schema_version") := Text("three-day-daily-k4-report-v1"),
        Name("model") := frozenModel,
        Name("candidate_manifest") := frozenManifest,
        Name("evidence") := Mapping(map[Name("mapping") := frozenEvidence, Name("validation") := frozenValidation]),
        Name("mapping") := frozenMapping,
        Name("global_fixed_baseline") := frozenBaseline,
        Name("profile") := env.profile,
        Name("chronology") := env.chronology]))
  }

  /** The freeze of the selected artifacts. */
  function FreezeOf(
    model: Value, manifest: Value, mappingEvidence: Value, validation: Value, mapping: Value, baseline: Value,
    env: Environment): (r: Result<Frozen, Failure>)
    ensures r.Ok? ==> r.value.digest == env.hash(r.value.payload) && AllowedPayload(r.value.payload)
  {
    match PayloadOf(model, manifest, mappingEvidence, validation, mapping, baseline, env)
    case Err(message) => Err(Dependency(message))
    case Ok(payload) =>
      match Freeze(payload, env.hash)
      case Err(error) => Err(Payload(error))
      case Ok(frozen) => Ok(frozen)
  }

  /** A payload that passed the search for Test material. */
  predicate AllowedPayload(payload: Value) {
    Freezable(payload) && payload.Mapping? && Clean(payload, [])
  }

  /** Creates the freeze; its payload becomes the tenth value. */
  function FreezeCreated(p: Progress, env: Environment): Progress {
    if p.failed.Some? || |p.values| != 9 then p
    else
      var v := p.values;
      match FreezeOf(v[1], v[2], v[3], v[5], v[7], v[8], env)
      case Err(failure) => Fail(p, failure)
      case Ok(frozen) => p.(values := p.values + [frozen.payload])
  }

  function Field(v: Value, key: string): Option<Value> {
    if v.Mapping? && Name(key) in v.fields then Some(v.fields[Name(key)]) else None
  }

  /** The five identities a Test result must repeat: its own key, and where the freeze holds it. */
  const IDENTITIES: seq<(string, string, string)> := [
    ("model_artifact_hash", "model", "artifact_hash"),
    ("candidate_manifest_hash", "candidate_manifest", "manifest_hash"),
    ("candidate_universe_hash", "candidate_manifest", "candidate_universe_hash"),
    ("mapping_artifact_hash", "mapping", "artifact_hash"),
    ("profile_id", "profile", "profile_id")]

  /** A value that is absent or None is nothing. */
  function Known(v: Option<Value>): Option<Value> {
    if v == Some(Null) then None else v
  }

  function Expected(payload: Value, identity: (string, string, string)): Option<Value> {
    var part := Field(payload, identity.1);
    if part.Some? then Known(Field(part.value, identity.2)) else None
  }

  /** An identity the freeze holds must be supplied, and a supplied one must be the one the freeze holds. */
  predicate Compatible(payload: Value, provenance: Value, identity: (string, string, string)) {
    var expected, supplied := Expected(payload, identity), Known(Field(provenance, identity.0));
    (expected.Some? ==> supplied.Some?) && (supplied.Some? ==> supplied == expected)
  }

  function FirstIncompatible(payload: Value, provenance: Value, i: nat): (bad: Option<string>)
    requires i <= |IDENTITIES|
    ensures bad.None? <==> forall k :: i <= k < |IDENTITIES| ==> Compatible(payload, provenance, IDENTITIES[k])
    decreases |IDENTITIES| - i
  {
    if i == |IDENTITIES| then None
    else if !Compatible(payload, provenance, IDENTITIES[i]) then Some(IDENTITIES[i].0)
    else FirstIncompatible(payload, provenance, i + 1)
  }

  predicate IsHash(text: string) {
    |text| == 64 && forall i :: 0 <= i < |text| ==> text[i] in "0123456789abcdef"
  }

  /** Why a Test result does not belong to a freeze. */
  function Unacceptable(frozen: Frozen, result: Value): Option<Failure> {
    if result.Null? then Some(NoTestResult)
    else
      var provenance := Field(result, "provenance");
      if provenance.None? || !provenance.value.Mapping? then Some(BadProvenance("provenance"))
      else
        var supplied := Field(provenance.value, "pre_test_freeze_hash");
        if supplied.None? || !supplied.value.Text? || !IsHash(supplied.value.text)
           || supplied.value.text != frozen.digest
        then Some(BadProvenance("pre_test_freeze_hash"))
        else
          var bad := FirstIncompatible(frozen.payload, provenance.value, 0);
          if bad.Some? then Some(BadProvenance(bad.value)) else None
  }

  /** The gate in front of the Test loader. */
  function TestRead(p: Progress, oracle: Oracle, env: Environment): Progress {
    if p.failed.Some? || |p.values| != 10 then p
    else
      var frozen := Frozen(p.values[9], env.hash(p.values[9]));
      if p.stage != PreTestFrozen then Fail(p, FreezeRequired)
      else
        var asked := Asked(p, oracle, LoadTest, [frozen.payload, Text(frozen.digest)]);
        if asked.failed.Some? then asked
        else
          var refused := Unacceptable(frozen, asked.values[10]);
          if refused.Some? then Fail(asked, refused.value) else Advanced(asked, 9)
  }

  function ReportPublished(p: Progress, oracle: Oracle, env: Environment): Progress {
    if p.failed.Some? || |p.values| != 12 then p
    else
      match env.report(p.values, p.events)
      case Err(message) => Fail(p, Dependency(message))
      case Ok(report) => Advanced(Asked(p, oracle, Publish, [report, p.values[1], p.values[7]]), 11)
  }

  function Arguments(values: seq<Value>, indices: seq<nat>): seq<Value> {
    seq(|indices|, i requires 0 <= i < |indices| => if indices[i] < |values| then values[indices[i]] else Null)
  }

  /** The k-th step. Answers are numbered by the step that got them: 0 sources, 1 model, 2 manifest, 3 mapping evidence,
      4 initial mapping, 5 validation evidence, 6 sensitivity, 7 final mapping, 8 baseline, 9 freeze, 10 Test,
      11 comparisons. */
  function Do(p: Progress, oracle: Oracle, env: Environment, k: nat): Progress {
    if p.failed.Some? then p
    else
      match Plain(k)
      case Some((dep, indices, s)) => Advanced(Asked(p, oracle, dep, Arguments(p.values, indices)), s)
      case None =>
        match k
        case 5 => Asked(p, oracle, LoadValidation, Arguments(p.values, [1, 2]))
        case 9 => Advanced(FreezeCreated(p, env), 8)
        case 10 => TestRead(p, oracle, env)
        case _ => ReportPublished(p, oracle, env)
  }

  /** The steps that call one dependency with earlier answers and leave one stage. */
  function Plain(k: nat): (step: Option<(Dep, seq<nat>, nat)>)
    ensures step.Some? ==> step.value.2 < LAST
  {
    match k
    case 0 => Some((VerifySources, [], 0))
    case 1 => Some((FitModel, [0], 1))
    case 2 => Some((FreezeCandidates, [], 2))
    case 3 => Some((LoadMapping, [1, 2], 3))
    case 4 => Some((BuildMapping, [1, 2, 3], 4))
    case 6 => Some((ReportSensitivity, [4, 1, 2, 3, 5], 5))
    case 7 => Some((RebuildMapping, [1, 2, 3, 5], 6))
    case 8 => Some((SelectBaseline, [2, 3, 5], 7))
    case 11 => Some((RunComparisons, [10, 1, 7, 8], 10))
    case _ => None
  }

  const STEPS: nat := 13

  function Execution(oracle: Oracle, env: Environment, start: Progress, k: nat): Progress {
    if k == 0 then start else Do(Execution(oracle, env, start, k - 1), oracle, env, k - 1)
  }

  // ---------------------------------------------------------------- the program

  /** The callables of a run, with the record of what was called and of the answers kept. */
  class World {
    const oracle: Oracle
    var calls: seq<Call>
    ghost var values: seq<Value>

    method Ask(dep: Dep, args: seq<Value>, stage: Stage) returns (answer: Result<Value, string>)
      modifies this
      ensures answer == oracle(old(calls), Call(dep, args, stage))
      ensures calls == old(calls) + [Call(dep, args, stage)]
      ensures values == if answer.Ok? then old(values) + [answer.value] else old(values)
    {
      answer := oracle(calls, Call(dep, args, stage));
      calls := calls + [Call(dep, args, stage)];
      if answer.Ok? {
        values := values + [answer.value];
      }
    }
  }

  ghost function Now(world: World, state: ExperimentState, failed: Option<Failure>): Progress
    reads world, state
  {
    Progress(state.stage, state.events, world.calls, world.values, failed)
  }

  /** A run that is going on has taken k steps, with one answer each. */
  ghost predicate At(world: World, state: ExperimentState, env: Environment, start: Progress, k: nat)
    reads world, state
  {
    |world.values| == k && Now(world, state, None) == Execution(world.oracle, env, start, k)
  }

  /** A run that has stopped for good. */
  ghost predicate Stopped(world: World, state: ExperimentState, env: Environment, start: Progress, failure: Failure)
    reads world, state
  {
    Now(world, state, Some(failure)) == Execution(world.oracle, env, start, STEPS)
  }

  lemma FailedDoesNothing(p: Progress, oracle: Oracle, env: Environment, k: nat)
    requires p.failed.Some?
    ensures Do(p, oracle, env, k) == p
  {
  }

  lemma {:induction false} FailedStays(oracle: Oracle, env: Environment, start: Progress, k: nat)
    requires k <= STEPS && Execution(oracle, env, start, k).failed.Some?
    ensures Execution(oracle, env, start, STEPS) == Execution(oracle, env, start, k)
    decreases STEPS - k
  {
    hide Do;
    if k >= STEPS {
    } else {
      FailedDoesNothing(Execution(oracle, env, start, k), oracle, env, k);
      FailedStays(oracle, env, start, k + 1);
    }
  }

  lemma StopsHere(world: World, state: ExperimentState, env: Environment, start: Progress, failure: Failure, k: nat)
    requires k < STEPS
    requires Now(world, state, Some(failure)) == Do(Execution(world.oracle, env, start, k), world.oracle, env, k)
    ensures Stopped(world, state, env, start, failure)
  {
    hide Do;
    FailedStays(world.oracle, env, start, k + 1);
  }

  lemma GoesOn(world: World, state: ExperimentState, env: Environment, start: Progress, k: nat)
    requires Now(world, state, None) == Do(Execution(world.oracle, env, start, k), world.oracle, env, k)
    requires |world.values| == k + 1
    ensures At(world, state, env, start, k + 1)
  {
    hide Do;
  }

  /** Calls a dependency and leaves the s-th stage: the shape of most steps. */
  method Perform(
    world: World, state: ExperimentState, env: Environment, dep: Dep, args: seq<Value>, s: nat,
    ghost indices: seq<nat>, ghost k: nat, ghost start: Progress)
    returns (answer: Result<Value, Failure>)
    requires k < STEPS && At(world, state, env, start, k)
    requires Plain(k) == Some((dep, indices, s)) && args == Arguments(world.values, indices)
    modifies world, state
    ensures answer.Ok? ==> At(world, state, env, start, k + 1) && world.values == old(world.values) + [answer.value]
    ensures answer.Err? ==> Stopped(world, state, env, start, answer.error)
  {
    hide Arguments, Plain, Execution;
    var called := world.Ask(dep, args, state.stage);
    if called.Err? {
      StopsHere(world, state, env, start, Dependency(called.error), k);
      return Err(Dependency(called.error));
    }
    var refused := state.Advance(StageAt(s), StageAt(s + 1), EventName(s));
    if refused.Some? {
      StopsHere(world, state, env, start, refused.value, k);
      return Err(refused.value);
    }
    GoesOn(world, state, env, start, k);
    answer := Ok(called.value);
  }

  /** Asks for the validation evidence, which leaves no stage. */
  method AskValidation(world: World, state: ExperimentState, env: Environment, args: seq<Value>, ghost start: Progress)
    returns (answer: Result<Value, Failure>)
    requires At(world, state, env, start, 5) && args == Arguments(world.values, [1, 2])
    modifies world, state
    ensures answer.Ok? ==> At(world, state, env, start, 6) && world.values == old(world.values) + [answer.value]
    ensures answer.Err? ==> Stopped(world, state, env, start, answer.error)
  {
    hide Arguments, Execution;
    var called := world.Ask(LoadValidation, args, state.stage);
    if called.Err? {
      StopsHere(world, state, env, start, Dependency(called.error), 5);
      return Err(Dependency(called.error));
    }
    GoesOn(world, state, env, start, 5);
    answer := Ok(called.value);
  }

  /** A plain step that went on has left its stage. */
  lemma StageAfter(world: World, state: ExperimentState, env: Environment, start: Progress, k: nat, s: nat)
    requires k > 0 && At(world, state, env, start, k) && Plain(k - 1).Some? && Plain(k - 1).value.2 == s
    ensures s < LAST && state.stage == StageAt(s + 1)
  {
    hide Plain, Arguments;
  }

  /** Creates the freeze from the selected artifacts. */
  method CreateFreeze(
    world: World, state: ExperimentState, env: Environment, model: Value, manifest: Value, mappingEvidence: Value,
    validation: Value, mapping: Value, baseline: Value, ghost start: Progress)
    returns (answer: Result<Frozen, Failure>)
    requires At(world, state, env, start, 9)
    requires Arguments(world.values, [1, 2, 3, 5, 7, 8])
          == [model, manifest, mappingEvidence, validation, mapping, baseline]
    modifies world, state
    ensures answer.Ok? ==>
              && At(world, state, env, start, 10)
              && world.values == old(world.values) + [answer.value.payload]
              && answer.value.digest == env.hash(answer.value.payload)
    ensures answer.Err? ==> Stopped(world, state, env, start, answer.error)
  {
    hide FreezeOf, AllowedPayload;
    StageAfter(world, state, env, start, 9, 7);
    hide Execution, StageAt, EventName, Boundary;
    ArgumentsAre(world.values, model, manifest, mappingEvidence, validation, mapping, baseline);
    var frozen := FreezeOf(model, manifest, mappingEvidence, validation, mapping, baseline, env);
    if frozen.Err? {
      StopsHere(world, state, env, start, frozen.error, 9);
      return Err(frozen.error);
    }
    var refused := state.Advance(StageAt(8), StageAt(9), EventName(8));
    world.values := world.values + [frozen.value.payload];
    assert refused.None?;
    GoesOn(world, state, env, start, 9);
    answer := Ok(frozen.value);
  }

  lemma ArgumentsAre(values: seq<Value>, a: Value, b: Value, c: Value, d: Value, e: Value, f: Value)
    requires |values| == 9 && Arguments(values, [1, 2, 3, 5, 7, 8]) == [a, b, c, d, e, f]
    ensures values[1] == a && values[2] == b && values[3] == c && values[5] == d && values[7] == e && values[8] == f
  {
    var given := Arguments(values, [1, 2, 3, 5, 7, 8]);
    assert given[0] == a && given[1] == b && given[2] == c && given[3] == d && given[4] == e && given[5] == f;
  }

  /** The gate in front of the Test loader: only with a valid freeze, only at the stage that follows it. */
  method LoadTestAfterFreeze(world: World, state: ExperimentState, env: Environment, frozen: Frozen)
    returns (answer: Result<Value, Failure>)
    requires |world.values| == 10 && world.values[9] == frozen.payload
    modifies world, state
    ensures frozen.digest == env.hash(frozen.payload) ==>
              Now(world, state, if answer.Err? then Some(answer.error) else None)
              == TestRead(old(Now(world, state, None)), world.oracle, env)
    ensures frozen.digest != env.hash(frozen.payload) ==>
              answer == Err(FreezeRequired) && unchanged(world) && unchanged(state)
    ensures answer.Ok? ==> world.values == old(world.values) + [answer.value]
  {
    hide Unacceptable;
    if frozen.digest != env.hash(frozen.payload) || state.stage != PreTestFrozen {
      return Err(FreezeRequired);
    }
    var called := world.Ask(LoadTest, [frozen.payload, Text(frozen.digest)], state.stage);
    if called.Err? {
      return Err(Dependency(called.error));
    }
    var refused := Unacceptable(frozen, called.value);
    if refused.Some? {
      return Err(refused.value);
    }
    var late := state.Advance(StageAt(9), StageAt(10), EventName(9));
    assert late.None?;
    answer := Ok(called.value);
  }

  /** Builds the report and publishes it. */
  method PublishReport(
    world: World, state: ExperimentState, env: Environment, model: Value, mapping: Value, values: seq<Value>,
    ghost start: Progress)
    returns (answer: Result<Value, Failure>)
    requires At(world, state, env, start, 12) && values == world.values && values[1] == model && values[7] == mapping
    modifies world, state
    ensures answer.Ok? ==> At(world, state, env, start, 13)
    ensures answer.Err? ==> Stopped(world, state, env, start, answer.error)
  {
    StageAfter(world, state, env, start, 12, 10);
    hide Execution, Arguments, StageAt, EventName, Boundary;
    var report := env.report(values, state.events);
    if report.Err? {
      StopsHere(world, state, env, start, Dependency(report.error), 12);
      return Err(Dependency(report.error));
    }
    var called := world.Ask(Publish, [report.value, model, mapping], state.stage);
    if called.Err? {
      StopsHere(world, state, env, start, Dependency(called.error), 12);
      return Err(Dependency(called.error));
    }
    var refused := state.Advance(StageAt(11), StageAt(12), EventName(11));
    assert refused.None?;
    GoesOn(world, state, env, start, 12);
    answer := Ok(report.value);
  }

  /** What is chosen before the freeze. */
  datatype Selected = Selected(
    sources: Value, model: Value, manifest: Value, mappingEvidence: Value, initialMapping: Value, validation: Value,
    sensitivity: Value, mapping: Value, baseline: Value)
  {
    function Values(): seq<Value> {
      [sources, model, manifest, mappingEvidence, initialMapping, validation, sensitivity, mapping, baseline]
    }
  }

  lemma PlainSteps()
    ensures Plain(0) == Some((VerifySources, [], 0)) && Plain(1) == Some((FitModel, [0], 1))
    ensures Plain(2) == Some((FreezeCandidates, [], 2)) && Plain(3) == Some((LoadMapping, [1, 2], 3))
    ensures Plain(4) == Some((BuildMapping, [1, 2, 3], 4)) && Plain(6) == Some((ReportSensitivity, [4, 1, 2, 3, 5], 5))
    ensures Plain(7) == Some((RebuildMapping, [1, 2, 3, 5], 6)) && Plain(8) == Some((SelectBaseline, [2, 3, 5], 7))
  {
  }

  /** The steps up to the initial mapping. */
  method RunInitialMapping(world: World, state: ExperimentState, env: Environment, ghost start: Progress)
    returns (result: Result<(Value, Value, Value, Value, Value), Failure>)
    requires world.values == [] && At(world, state, env, start, 0)
    modifies world, state
    ensures result.Ok? ==> At(world, state, env, start, 5)
    ensures result.Ok? ==> var r := result.value; world.values == [r.0, r.1, r.2, r.3, r.4]
    ensures result.Err? ==> Stopped(world, state, env, start, result.error)
  {
    PlainSteps();
    hide Do, Execution, At, Stopped, Plain;
    var sources :- Perform(world, state, env, VerifySources, [], 0, [], 0, start);
    assert world.values == [sources];
    var model :- Perform(world, state, env, FitModel, [sources], 1, [0], 1, start);
    assert world.values == [sources, model];
    var manifest :- Perform(world, state, env, FreezeCandidates, [], 2, [], 2, start);
    assert world.values == [sources, model, manifest];
    var mappingEvidence :- Perform(world, state, env, LoadMapping, [model, manifest], 3, [1, 2], 3, start);
    assert world.values == [sources, model, manifest, mappingEvidence];
    var initialMapping :- Perform(
      world, state, env, BuildMapping, [model, manifest, mappingEvidence], 4, [1, 2, 3], 4, start);
    result := Ok((sources, model, manifest, mappingEvidence, initialMapping));
  }

  /** The steps up to the freeze. */
  method RunSelection(world: World, state: ExperimentState, env: Environment, ghost start: Progress)
    returns (result: Result<Selected, Failure>)
    requires world.values == [] && At(world, state, env, start, 0)
    modifies world, state
    ensures result.Ok? ==> At(world, state, env, start, 9) && world.values == result.value.Values()
    ensures result.Err? ==> Stopped(world, state, env, start, result.error)
  {
    PlainSteps();
    hide Do, Execution, At, Stopped, Plain;
    var first :- RunInitialMapping(world, state, env, start);
    var (sources, model, manifest, mappingEvidence, initialMapping) := first;
    var validation :- AskValidation(world, state, env, [model, manifest], start);
    assert world.values == [sources, model, manifest, mappingEvidence, initialMapping, validation];
    var sensitivity :- Perform(
      world, state, env, ReportSensitivity, [initialMapping, model, manifest, mappingEvidence, validation],
      5, [4, 1, 2, 3, 5], 6, start);
    assert world.values == [sources, model, manifest, mappingEvidence, initialMapping, validation, sensitivity];
    var mapping :- Perform(
      world, state, env, RebuildMapping, [model, manifest, mappingEvidence, validation], 6, [1, 2, 3, 5], 7, start);
    assert world.values == [sources, model, manifest, mappingEvidence, initialMapping, validation, sensitivity,
                            mapping];
    var baseline :- Perform(
      world, state, env, SelectBaseline, [manifest, mappingEvidence, validation], 7, [2, 3, 5], 8, start);
    result := Ok(Selected(
      sources, model, manifest, mappingEvidence, initialMapping, validation, sensitivity, mapping, baseline));
  }

  /** The whole run, on a state the caller may have used before. */
  method RunExperiment(world: World, state: ExperimentState, env: Environment) returns (result: Result<Value, Failure>)
    requires world.values == []
    modifies world, state
    ensures Now(world, state, if result.Err? then Some(result.error) else None)
         == Execution(world.oracle, env, old(Now(world, state, None)), STEPS)
  {
    ghost var start := Now(world, state, None);
    StartsAt(world, state, env, start);
    hide Do, Execution, At, Arguments, Plain, Selected.Values, Stopped, Freeze;
    var selected :- RunSelection(world, state, env, start);
    SelectedArguments(selected);
    var frozen :- CreateFreeze(
      world, state, env, selected.model, selected.manifest, selected.mappingEvidence, selected.validation,
      selected.mapping, selected.baseline, start);
    var test :- ReadTest(world, state, env, frozen, start);
    ComparisonArguments(selected, frozen.payload, test);
    var comparisons :- Perform(
      world, state, env, RunComparisons, [test, selected.model, selected.mapping, selected.baseline],
      10, [10, 1, 7, 8], 11, start);
    result := PublishReport(
      world, state, env, selected.model, selected.mapping,
      selected.Values() + [frozen.payload] + [test] + [comparisons], start);
    FinishesAt(world, state, env, start, result);
  }

  lemma SelectedArguments(s: Selected)
    ensures Arguments(s.Values(), [1, 2, 3, 5, 7, 8])
         == [s.model, s.manifest, s.mappingEvidence, s.validation, s.mapping, s.baseline]
  {
  }

  lemma ComparisonArguments(s: Selected, payload: Value, test: Value)
    ensures Arguments(s.Values() + [payload] + [test], [10, 1, 7, 8]) == [test, s.model, s.mapping, s.baseline]
    ensures Plain(11) == Some((RunComparisons, [10, 1, 7, 8], 10))
    ensures |s.Values()| == 9 && s.Values()[1] == s.model && s.Values()[7] == s.mapping
  {
  }

  lemma FinishesAt(
    world: World, state: ExperimentState, env: Environment, start: Progress, result: Result<Value, Failure>)
    requires result.Ok? ==> At(world, state, env, start, STEPS)
    requires result.Err? ==> Stopped(world, state, env, start, result.error)
    ensures Now(world, state, if result.Err? then Some(result.error) else None)
         == Execution(world.oracle, env, start, STEPS)
  {
  }

  lemma StartsAt(world: World, state: ExperimentState, env: Environment, start: Progress)
    requires start == Now(world, state, None) && world.values == []
    ensures At(world, state, env, start, 0)
  {
  }

  /** The Test loader behind its gate, as the eleventh step. */
  method ReadTest(world: World, state: ExperimentState, env: Environment, frozen: Frozen, ghost start: Progress)
    returns (answer: Result<Value, Failure>)
    requires At(world, state, env, start, 10) && world.values[9] == frozen.payload
    requires frozen.digest == env.hash(frozen.payload)
    modifies world, state
    ensures answer.Ok? ==> At(world, state, env, start, 11) && world.values == old(world.values) + [answer.value]
    ensures answer.Err? ==> Stopped(world, state, env, start, answer.error)
  {
    hide TestRead, Execution;
    answer := LoadTestAfterFreeze(world, state, env, frozen);
    if answer.Err? {
      StopsHere(world, state, env, start, answer.error, 10);
    } else {
      GoesOn(world, state, env, start, 10);
    }
  }

  // ---------------------------------------------------------------- the log and the calls of every run

  /** A run on a new state. */
  const FRESH := Progress(Initial, [], [], [], None)

  /** The numbered events that leave the first s stages. */
  function Log(s: nat): (events: seq<Event>)
    ensures |events| == s
  {
    if s == 0 then [] else Log(s - 1) + [Event(EventName(s - 1), s, StageAt(s), Boundary(StageAt(s)))]
  }

  /** The stage is some way along the chain and the log is exactly the events that lead there. */
  ghost predicate OnChain(p: Progress, s: nat) {
    s <= LAST && p.stage == StageAt(s) && p.events == Log(s)
  }

  /** How far along the chain step k leaves a run that goes on. */
  function Reached(k: nat): nat {
    if k <= 5 then k else if k <= STEPS then k - 1 else LAST
  }

  /** The dependency step k calls; creating the freeze calls none. */
  function DepAt(k: nat): Dep {
    match k
    case 5 => LoadValidation
    case 10 => LoadTest
    case 12 => Publish
    case _ => if Plain(k).Some? then Plain(k).value.0 else Publish
  }

  /** The step that makes the i-th call. */
  function StepOf(i: nat): nat {
    if i < 9 then i else i + 1
  }

  /** The number of calls a run that goes on has made before step k: every step but the freeze makes one. */
  function CallsBy(k: nat): nat {
    if k <= 9 then k else k - 1
  }

  /** The calls are a prefix of one fixed schedule of dependencies and stages, and the Test loader gets the freeze. */
  ghost predicate Scheduled(p: Progress, env: Environment) {
    && |p.calls| <= 12
    && (forall i :: 0 <= i < |p.calls| ==>
          p.calls[i].dep == DepAt(StepOf(i)) && p.calls[i].stage == StageAt(Reached(StepOf(i))))
    && (|p.calls| > 9 ==>
          |p.values| >= 10 && p.calls[9].args == [p.values[9], Text(env.hash(p.values[9]))])
  }

  lemma AdvancedOnChain(p: Progress, s: nat)
    requires s < LAST && OnChain(p, s) && p.failed.None?
    ensures var after := Advanced(p, s);
            OnChain(after, s + 1) && after.failed.None? && after.values == p.values && after.calls == p.calls
  {
    hide StageAt, EventName, Boundary;
  }

  lemma AskedKeepsStage(p: Progress, oracle: Oracle, dep: Dep, args: seq<Value>)
    requires p.failed.None?
    ensures var after := Asked(p, oracle, dep, args);
            && after.stage == p.stage && after.events == p.events
            && after.calls == p.calls + [Call(dep, args, p.stage)]
            && (after.failed.None? ==>
                  oracle(p.calls, Call(dep, args, p.stage)).Ok?
                  && after.values == p.values + [oracle(p.calls, Call(dep, args, p.stage)).value])
            && (after.failed.Some? ==> after.values == p.values)
  {
  }

  lemma AskedThenAdvanced(p: Progress, oracle: Oracle, dep: Dep, args: seq<Value>, s: nat)
    requires s < LAST && OnChain(p, s) && p.failed.None?
    ensures var after := Advanced(Asked(p, oracle, dep, args), s);
            && after.calls == p.calls + [Call(dep, args, StageAt(s))]
            && if after.failed.None?
               then OnChain(after, s + 1) && |after.values| == |p.values| + 1 && p.values <= after.values
               else OnChain(after, s) && after.values == p.values
  {
    hide Asked, AdvanceOf, Log, StageAt;
    AskedKeepsStage(p, oracle, dep, args);
    var asked := Asked(p, oracle, dep, args);
    if asked.failed.None? {
      AdvancedOnChain(asked, s);
    }
  }

  lemma SameStageSameChain(p: Progress, q: Progress, s: nat)
    requires OnChain(p, s) && q.stage == p.stage && q.events == p.events
    ensures OnChain(q, s)
  {
  }

  lemma FreezeKeepsStage(p: Progress, env: Environment)
    requires p.failed.None? && |p.values| == 9
    ensures var after := FreezeCreated(p, env);
            && after.stage == p.stage && after.events == p.events && after.calls == p.calls
            && p.values <= after.values
            && |after.values| == (if after.failed.None? then 10 else 9)
            && (after.failed.None? ==> AllowedPayload(after.values[9]))
  {
    hide FreezeOf;
  }

  /** What one step does: it makes its own call or none, and only adds answers. */
  ghost predicate StepDone(p: Progress, after: Progress, env: Environment, k: nat) {
    && p.values <= after.values
    && (if after.failed.None? then OnChain(after, Reached(k + 1)) && |after.values| == k + 1
        else OnChain(after, Reached(k)))
    && (|| after.calls == p.calls
        || exists args: seq<Value> ::
             && after.calls == p.calls + [Call(DepAt(k), args, p.stage)]
             && (k == 10 ==> |p.values| == 10 && args == [p.values[9], Text(env.hash(p.values[9]))]))
    && (after.failed.None? ==> (after.calls == p.calls <==> k == 9))
    && (k == 9 ==> after.calls == p.calls)
    && (after.failed.Some? && k != 10 ==> after.values == p.values)
    && (k == 9 && after.failed.None? ==> AllowedPayload(after.values[9]))
    && (k == 10 && after.failed.None? ==>
          Unacceptable(Frozen(after.values[9], env.hash(after.values[9])), after.values[10]).None?)
  }

  lemma StepDoesItsPart(p: Progress, oracle: Oracle, env: Environment, k: nat)
    requires k < STEPS && p.failed.None? && OnChain(p, Reached(k)) && |p.values| == k
    ensures StepDone(p, Do(p, oracle, env, k), env, k)
  {
    hide Asked, Advanced, Arguments, Unacceptable, FreezeCreated, Log, Boundary;
    if Plain(k).Some? {
      var (dep, indices, s) := Plain(k).value;
      AskedThenAdvanced(p, oracle, dep, Arguments(p.values, indices), s);
      assert Call(dep, Arguments(p.values, indices), p.stage) == Call(DepAt(k), Arguments(p.values, indices), p.stage);
    } else if k == 5 {
      var args := Arguments(p.values, [1, 2]);
      AskedKeepsStage(p, oracle, LoadValidation, args);
      SameStageSameChain(p, Asked(p, oracle, LoadValidation, args), 5);
      assert Call(LoadValidation, args, p.stage) == Call(DepAt(k), args, p.stage);
    } else if k == 9 {
      FreezeKeepsStage(p, env);
      var created := FreezeCreated(p, env);
      SameStageSameChain(p, created, 8);
      if created.failed.None? {
        AdvancedOnChain(created, 8);
      } else {
        AdvancedKeepsFailure(created, 8);
      }
    } else if k == 10 {
      var args := [p.values[9], Text(env.hash(p.values[9]))];
      AskedKeepsStage(p, oracle, LoadTest, args);
      var asked := Asked(p, oracle, LoadTest, args);
      SameStageSameChain(p, asked, 9);
      assert Call(LoadTest, args, p.stage) == Call(DepAt(k), args, p.stage);
      if asked.failed.None? {
        AdvancedOnChain(asked, 9);
      }
    } else {
      var report := env.report(p.values, p.events);
      if report.Ok? {
        var args := [report.value, p.values[1], p.values[7]];
        AskedThenAdvanced(p, oracle, Publish, args, 11);
        assert Call(Publish, args, p.stage) == Call(DepAt(k), args, p.stage);
      }
    }
  }

  lemma AdvancedKeepsFailure(p: Progress, s: nat)
    requires s < LAST && p.failed.Some?
    ensures Advanced(p, s) == p
  {
  }

  /** The frozen payload holds no Test material, and a Test result that was let in belongs to it. */
  ghost predicate Guarded(p: Progress, env: Environment) {
    && (|p.values| > 9 ==> AllowedPayload(p.values[9]))
    && (p.stage == TestLoaded || p.stage == ComparisonsRun || p.stage == Published ==>
          |p.values| > 10 && Unacceptable(Frozen(p.values[9], env.hash(p.values[9])), p.values[10]).None?)
  }

  ghost predicate Sound(p: Progress, env: Environment, k: nat) {
    && Scheduled(p, env) && Guarded(p, env) && |p.calls| <= CallsBy(k)
    && if p.failed.None? then OnChain(p, Reached(k)) && |p.values| == k && |p.calls| == CallsBy(k)
       else exists s: nat :: s < LAST && s <= Reached(k) && OnChain(p, s)
  }

  lemma StepKeepsSchedule(p: Progress, after: Progress, env: Environment, k: nat)
    requires k < STEPS && Scheduled(p, env) && |p.calls| == CallsBy(k) && StepDone(p, after, env, k)
    requires p.stage == StageAt(Reached(k)) && |p.values| == k
    ensures Scheduled(after, env) && |after.calls| <= CallsBy(k + 1)
    ensures after.failed.None? ==> |after.calls| == CallsBy(k + 1)
  {
    hide DepAt, StageAt, OnChain, AllowedPayload, Unacceptable;
  }

  lemma StepKeepsGuard(p: Progress, after: Progress, env: Environment, k: nat)
    requires k < STEPS && Guarded(p, env) && p.stage == StageAt(Reached(k)) && |p.values| == k
             && StepDone(p, after, env, k)
    ensures Guarded(after, env)
  {
    hide DepAt, Log, AllowedPayload, Unacceptable;
    if k < 10 {
      assert Reached(k) <= 9 && Reached(k + 1) <= 9;
      assert after.stage == StageAt(Reached(k)) || after.stage == StageAt(Reached(k + 1));
    } else {
      assert after.values[9] == p.values[9];
      if k > 10 {
        assert Reached(k) >= 10;
        assert after.values[10] == p.values[10];
      }
    }
  }

  lemma StepKeepsSound(p: Progress, oracle: Oracle, env: Environment, k: nat)
    requires k < STEPS && p.failed.None? && Sound(p, env, k)
    ensures Sound(Do(p, oracle, env, k), env, k + 1)
  {
    hide Do, Scheduled, Guarded, StepDone, Log;
    StepDoesItsPart(p, oracle, env, k);
    var after := Do(p, oracle, env, k);
    StepKeepsSchedule(p, after, env, k);
    StepKeepsGuard(p, after, env, k);
    StepEnds(p, after, env, k);
    hide OnChain;
  }

  lemma {:induction false} RunIsSound(oracle: Oracle, env: Environment, k: nat)
    requires k <= STEPS
    ensures Sound(Execution(oracle, env, FRESH, k), env, k)
  {
    hide Do, Sound;
    if k == 0 {
      FreshIsSound(env);
    } else {
      RunIsSound(oracle, env, k - 1);
      var p := Execution(oracle, env, FRESH, k - 1);
      if p.failed.Some? {
        FailedDoesNothing(p, oracle, env, k - 1);
        FailedStaysSound(p, env, k - 1);
      } else {
        StepKeepsSound(p, oracle, env, k - 1);
      }
    }
  }

  lemma FreshIsSound(env: Environment)
    ensures Sound(FRESH, env, 0)
  {
    assert OnChain(FRESH, 0);
  }

  lemma FailedStaysSound(p: Progress, env: Environment, k: nat)
    requires k < STEPS && p.failed.Some? && Sound(p, env, k)
    ensures Sound(p, env, k + 1)
  {
    hide OnChain, Scheduled, Guarded;
  }

  lemma StepEnds(p: Progress, after: Progress, env: Environment, k: nat)
    requires StepDone(p, after, env, k)
    ensures if after.failed.None? then OnChain(after, Reached(k + 1)) && |after.values| == k + 1
            else OnChain(after, Reached(k))
    ensures p.values <= after.values
  {
    hide OnChain;
  }

  /** However its dependencies answer or fail, a run's log is a numbered prefix of the chain, complete exactly when
      nothing failed. */
  lemma LogIsPrefixOfChain(oracle: Oracle, env: Environment)
    ensures var end := Execution(oracle, env, FRESH, STEPS);
            exists s: nat :: s <= LAST && OnChain(end, s) && (end.failed.None? <==> s == LAST)
  {
    hide Scheduled, Guarded, OnChain;
    RunIsSound(oracle, env, STEPS);
  }

  /** The Test loader runs at most once, only when everything is frozen, and only with that freeze, which holds no Test
      material; nothing Test-side runs before it. */
  lemma TestLoaderRunsOnceAfterFreeze(oracle: Oracle, env: Environment, i: nat)
    requires var end := Execution(oracle, env, FRESH, STEPS); i < |end.calls| && TestSide(end.calls[i].dep)
    ensures var end := Execution(oracle, env, FRESH, STEPS);
            && i >= 9 && |end.values| >= 10 && AllowedPayload(end.values[9])
            && (end.calls[i].dep == LoadTest ==>
                  && i == 9 && end.calls[i].stage == PreTestFrozen
                  && end.calls[i].args == [end.values[9], Text(env.hash(end.values[9]))])
  {
    hide Execution, AllowedPayload, OnChain;
    RunIsSound(oracle, env, STEPS);
  }

  /** A run that got past the Test loader holds a Test result that names its own freeze and artifacts. */
  lemma TestResultBelongsToFreeze(oracle: Oracle, env: Environment)
    requires Execution(oracle, env, FRESH, STEPS).failed.None?
    ensures var values := Execution(oracle, env, FRESH, STEPS).values;
            && |values| == STEPS
            && var provenance := Field(values[10], "provenance");
               && provenance.Some?
               && Field(provenance.value, "pre_test_freeze_hash") == Some(Text(env.hash(values[9])))
               && forall k :: 0 <= k < |IDENTITIES| ==> Compatible(values[9], provenance.value, IDENTITIES[k])
  {
    hide Execution, AllowedPayload, Scheduled, Compatible, Field, IsHash;
    RunIsSound(oracle, env, STEPS);
  }

  // ---------------------------------------------------------------- nothing flows back from Test

  predicate NoTestYet(history: seq<Call>) {
    forall i :: 0 <= i < |history| ==> !TestSide(history[i].dep)
  }

  /** Two worlds that differ only in what the Test loader, the comparisons and the publisher answer, and in anything
      answered after one of them ran. */
  ghost predicate AgreeBeforeTest(a: Oracle, b: Oracle) {
    forall history: seq<Call>, call: Call :: NoTestYet(history) && !TestSide(call.dep) ==>
      a(history, call) == b(history, call)
  }

  lemma StepSeesNoTest(p: Progress, a: Oracle, b: Oracle, envA: Environment, envB: Environment, k: nat)
    requires AgreeBeforeTest(a, b) && envA.(report := envB.report) == envB && k < 10 && NoTestYet(p.calls)
    ensures Do(p, a, envA, k) == Do(p, b, envB, k)
  {
    hide Advanced, Arguments, FreezeCreated, NoTestYet;
    if k == 9 {
      FreezeIgnoresReport(p, envA, envB);
    }
  }

  lemma FreezeIgnoresReport(p: Progress, envA: Environment, envB: Environment)
    requires envA.(report := envB.report) == envB
    ensures FreezeCreated(p, envA) == FreezeCreated(p, envB)
  {
    hide Freeze;
  }

  /** Two runs that differ only in Test data, comparisons, report and publishing have taken the same steps when the
      freeze exists: same events, same calls, same model, mapping, baseline and frozen payload. */
  lemma {:induction false} SelectionIgnoresTest(a: Oracle, b: Oracle, envA: Environment, envB: Environment, k: nat)
    requires AgreeBeforeTest(a, b) && envA.(report := envB.report) == envB && k <= 10
    ensures Execution(a, envA, FRESH, k) == Execution(b, envB, FRESH, k)
  {
    hide Do;
    if k <= 0 {
    } else {
      SelectionIgnoresTest(a, b, envA, envB, k - 1);
      var p := Execution(a, envA, FRESH, k - 1);
      NoTestBefore(a, envA, k - 1);
      StepSeesNoTest(p, a, b, envA, envB, k - 1);
    }
  }

  lemma NoTestBefore(oracle: Oracle, env: Environment, k: nat)
    requires k < 10
    ensures NoTestYet(Execution(oracle, env, FRESH, k).calls)
  {
    hide Execution, Guarded, OnChain;
    RunIsSound(oracle, env, k);
  }

  lemma StepOnlyAdds(oracle: Oracle, env: Environment, k: nat)
    requires k < STEPS
    ensures var p := Execution(oracle, env, FRESH, k); p.values <= Do(p, oracle, env, k).values
  {
    hide Do, Scheduled, Guarded, OnChain, StepDone, Execution;
    var p := Execution(oracle, env, FRESH, k);
    if p.failed.Some? {
      FailedDoesNothing(p, oracle, env, k);
    } else {
      RunIsSound(oracle, env, k);
      StepDoesItsPart(p, oracle, env, k);
      StepEnds(p, Do(p, oracle, env, k), env, k);
    }
  }

  /** And nothing that happens afterwards changes them: what was selected and frozen is what the run ends with. */
  lemma {:induction false} SelectionIsKept(oracle: Oracle, env: Environment, k: nat)
    requires 10 <= k <= STEPS
    ensures Execution(oracle, env, FRESH, 10).values <= Execution(oracle, env, FRESH, k).values
    decreases k
  {
    hide Do;
    if k <= 10 {
    } else {
      SelectionIsKept(oracle, env, k - 1);
      StepOnlyAdds(oracle, env, k - 1);
    }
  }

  /** So the finished runs agree on everything selected, for every Test side. */
  lemma TestCannotReachSelection(a: Oracle, b: Oracle, envA: Environment, envB: Environment)
    requires AgreeBeforeTest(a, b) && envA.(report := envB.report) == envB
    ensures var before := Execution(a, envA, FRESH, 10);
            && before == Execution(b, envB, FRESH, 10)
            && before.values <= Execution(a, envA, FRESH, STEPS).values
            && before.values <= Execution(b, envB, FRESH, STEPS).values
  {
    hide Execution;
    SelectionIgnoresTest(a, b, envA, envB, 10);
    SelectionIsKept(a, envA, STEPS);
    SelectionIsKept(b, envB, STEPS);
  }

  /** A state that was used before is refused after the source check, untouched. */
  lemma UsedStateIsRefused(oracle: Oracle, env: Environment, start: Progress)
    requires start.failed.None? && start.stage != Initial
    ensures var end := Execution(oracle, env, start, STEPS);
            && end.failed.Some? && end.stage == start.stage && end.events == start.events
            && end.calls == start.calls + [Call(VerifySources, [], start.stage)]
  {
    hide EventName, Boundary, TestRead, FreezeCreated, ReportPublished;
    AskedKeepsStage(start, oracle, VerifySources, []);
    assert Arguments(start.values, []) == [];
    hide Asked;
    assert Execution(oracle, env, start, 0) == start;
    var first := Do(start, oracle, env, 0);
    assert first.failed.Some?;
    assert Execution(oracle, env, start, 1) == first;
    FailedStays(oracle, env, start, 1);
  }
}
