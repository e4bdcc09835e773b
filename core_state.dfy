/**
 * The evolving application state (src/core/state.py): its records, the
 * validation run at construction and by `validate_state`, the version bump,
 * the aggregated activities of an outline and the dict mapping used for
 * persistence.
 */
module CoreState {
  import opened Wrappers
  import opened AgentModels
  import opened Reports

  /** A reference to a source; URL syntax checks are not modelled. */
  datatype Citation = Citation(url: string)

  datatype Module = Module(id: string, title: string, durationMin: int, learningObjectives: seq<string>, activities: seq<Activity>)

  datatype Outline = Outline(steps: seq<string>, learningObjectives: seq<string>, modules: seq<Module>)

  /** `Outline()`. */
  function EmptyOutline(): Outline
  {
    Outline([], [], [])
  }

  /** A log entry; the level defaults to "INFO" and the timestamp comes from
      the clock, so it is given by the caller. */
  datatype ActionLog = ActionLog(message: string, level: string, timestamp: string)

  // ---------------------------------------------------------------------------
  // Outline.activities
  // ---------------------------------------------------------------------------

  /** The activities of the modules, module after module. */
  function ModuleActivities(modules: seq<Module>): seq<Activity>
  {
    if modules == [] then [] else ModuleActivities(modules[..|modules| - 1]) + modules[|modules| - 1].activities
  }

  /** Flattening distributes over splitting the module list. */
  lemma {:induction false} ModuleActivitiesAppend(xs: seq<Module>, ys: seq<Module>)
    ensures ModuleActivities(xs + ys) == ModuleActivities(xs) + ModuleActivities(ys)
    decreases |ys|
  {
    if ys == [] {
      assert xs + ys == xs;
    } else {
      var front := ys[..|ys| - 1];
      assert (xs + ys)[..|xs + ys| - 1] == xs + front;
      ModuleActivitiesAppend(xs, front);
    }
  }

  /** Each module contributes its own activities, in order, at the offset of
      the activities of the modules before it. */
  lemma {:induction false} ModuleActivitiesAt(modules: seq<Module>, k: nat)
    requires k < |modules|
    ensures var before := |ModuleActivities(modules[..k])|;
      && before + |modules[k].activities| <= |ModuleActivities(modules)|
      && ModuleActivities(modules)[before..before + |modules[k].activities|] == modules[k].activities
  {
    assert modules == modules[..k] + [modules[k]] + modules[k + 1..];
    ModuleActivitiesAppend(modules[..k] + [modules[k]], modules[k + 1..]);
    ModuleActivitiesAppend(modules[..k], [modules[k]]);
    assert ModuleActivities([modules[k]]) == ModuleActivities([]) + modules[k].activities;
  }

  /** `Outline.activities`: a loop extending the list with each module's
      activities. */
  method Activities(outline: Outline) returns (acts: seq<Activity>)
    ensures acts == ModuleActivities(outline.modules)
  {
    acts := [];
    var i := 0;
    while i < |outline.modules|
      invariant 0 <= i <= |outline.modules|
      invariant acts == ModuleActivities(outline.modules[..i])
    {
      assert outline.modules[..i + 1][..i] == outline.modules[..i];
      acts := acts + outline.modules[i].activities;
      i := i + 1;
    }
    assert outline.modules[..i] == outline.modules;
  }

  // ---------------------------------------------------------------------------
  // Validation
  // ---------------------------------------------------------------------------

  /** `set(urls)`. */
  function ToSet(xs: seq<string>): (r: set<string>)
    ensures forall x :: x in r <==> x in xs
  {
    if xs == [] then {} else {xs[0]} + ToSet(xs[1..])
  }

  /** `len(urls) != len(set(urls))`. */
  predicate HasDuplicates(urls: seq<string>)
  {
    |urls| != |ToSet(urls)|
  }

  predicate Distinct(xs: seq<string>)
  {
    forall i, j :: 0 <= i < j < |xs| ==> xs[i] != xs[j]
  }

  lemma {:induction false} DistinctCons(xs: seq<string>)
    requires xs != []
    ensures Distinct(xs) <==> xs[0] !in xs[1..] && Distinct(xs[1..])
  {
    var rest := xs[1..];
    if xs[0] in rest {
      var j :| 0 <= j < |rest| && rest[j] == xs[0];
      assert xs[0] == xs[j + 1];
    } else if Distinct(rest) {
      forall i, j | 0 <= i < j < |xs| ensures xs[i] != xs[j] {
        assert xs[j] == rest[j - 1];
        if i > 0 { assert xs[i] == rest[i - 1]; }
      }
    } else {
      var i, j :| 0 <= i < j < |rest| && rest[i] == rest[j];
      assert xs[i + 1] == xs[j + 1];
    }
  }

  /** The set has as many elements as the list exactly when no element of
      the list repeats. */
  lemma {:induction false} DuplicatesIffRepeat(xs: seq<string>)
    ensures |ToSet(xs)| <= |xs|
    ensures HasDuplicates(xs) <==> !Distinct(xs)
  {
    if xs != [] {
      var rest := xs[1..];
      DuplicatesIffRepeat(rest);
      DistinctCons(xs);
      if xs[0] in rest {
        assert ToSet(xs) == ToSet(rest);
      } else {
        assert |ToSet(xs)| == |ToSet(rest)| + 1;
      }
    }
  }

  function Urls(sources: seq<Citation>): (r: seq<string>)
    ensures |r| == |sources| && forall k :: 0 <= k < |r| ==> r[k] == sources[k].url
  {
    if sources == [] then [] else [sources[0].url] + Urls(sources[1..])
  }

  /** The values of the fields of a `State`. */
  datatype StateFields = StateFields(
    prompt: string,
    sources: seq<Citation>,
    outline: Outline,
    log: seq<ActionLog>,
    retries: map<string, int>,
    retryCounts: map<string, int>,
    learningObjectives: seq<string>,
    modules: seq<Module>,
    critiqueReport: Option<CritiqueReport>,
    factcheckReport: Option<FactCheckReport>,
    version: int)

  /** `State.__post_init__`: an empty prompt, then repeated citation URLs,
      raise. */
  function PostInit(f: StateFields): (r: Outcome)
    ensures r == Pass <==> f.prompt != "" && Distinct(Urls(f.sources))
  {
    DuplicatesIffRepeat(Urls(f.sources));
    if f.prompt == "" then Fail("prompt must be non-empty")
    else if HasDuplicates(Urls(f.sources)) then Fail("citation URLs must be unique")
    else Pass
  }

  /** `validate_state`: as construction, and a negative version raises too;
      the checks run in the order prompt, version, URLs. */
  function ValidateState(f: StateFields): (r: Outcome)
    ensures r == Pass <==> f.prompt != "" && f.version >= 0 && Distinct(Urls(f.sources))
    ensures f.prompt == "" ==> r == Fail("prompt must be non-empty")
    ensures f.prompt != "" && f.version < 0 ==> r == Fail("version must be non-negative")
  {
    DuplicatesIffRepeat(Urls(f.sources));
    if f.prompt == "" then Fail("prompt must be non-empty")
    else if f.version < 0 then Fail("version must be non-negative")
    else if HasDuplicates(Urls(f.sources)) then Fail("citation URLs must be unique")
    else Pass
  }

  /** A state that passes `validate_state` could have been constructed. */
  lemma {:induction false} ValidImpliesConstructible(f: StateFields)
    requires ValidateState(f) == Pass
    ensures PostInit(f) == Pass
  {
  }

  // ---------------------------------------------------------------------------
  // The mutable state
  // ---------------------------------------------------------------------------

  class State {
    var prompt: string
    var sources: seq<Citation>
    var outline: Outline
    var log: seq<ActionLog>
    var retries: map<string, int>
    var retryCounts: map<string, int>
    var learningObjectives: seq<string>
    var modules: seq<Module>
    var critiqueReport: Option<CritiqueReport>
    var factcheckReport: Option<FactCheckReport>
    var version: int

    function Fields(): StateFields
      reads this
    {
      StateFields(prompt, sources, outline, log, retries, retryCounts, learningObjectives,
                  modules, critiqueReport, factcheckReport, version)
    }

    /** Field assignment of the dataclass, before `__post_init__`. */
    constructor (f: StateFields)
      ensures Fields() == f
    {
      prompt := f.prompt;
      sources := f.sources;
      outline := f.outline;
      log := f.log;
      retries := f.retries;
      retryCounts := f.retryCounts;
      learningObjectives := f.learningObjectives;
      modules := f.modules;
      critiqueReport := f.critiqueReport;
      factcheckReport := f.factcheckReport;
      version := f.version;
    }
  }

  /** `State(...)`: assigns the fields, then runs `__post_init__`, which
      raises instead of returning a state. */
  method NewState(f: StateFields) returns (r: Result<State>)
    ensures r.Ok? <==> PostInit(f) == Pass
    ensures r.Err? ==> r.error == PostInit(f).error
    ensures r.Ok? ==> fresh(r.value) && r.value.Fields() == f
  {
    var outcome := PostInit(f);
    if outcome.Fail? {
      return Err(outcome.error);
    }
    var s := new State(f);
    return Ok(s);
  }

  /** `increment_version`: adds one to the version and returns the new value,
      changing nothing else. */
  method IncrementVersion(state: State) returns (v: int)
    modifies state`version
    ensures state.version == old(state.version) + 1 && v == state.version
  {
    state.version := state.version + 1;
    v := state.version;
  }

  // ---------------------------------------------------------------------------
  // to_dict / from_dict
  // ---------------------------------------------------------------------------

  /** The dictionary of `to_dict`, one entry per key; `None` is a missing key.
      Nested models are kept as the values their `model_dump` stands for. */
  datatype RawState = RawState(
    prompt: Option<string>,
    sources: Option<seq<Citation>>,
    outline: Option<Outline>,
    log: Option<seq<ActionLog>>,
    retries: Option<map<string, int>>,
    retryCounts: Option<map<string, int>>,
    learningObjectives: Option<seq<string>>,
    modules: Option<seq<Module>>,
    critiqueReport: Option<CritiqueReport>,
    factcheckReport: Option<FactCheckReport>,
    version: Option<int>)

  function Get<T>(o: Option<T>, default: T): T
  {
    if o.Some? then o.value else default
  }

  /** `to_dict`: every key is present. */
  function ToDict(f: StateFields): (raw: RawState)
    ensures raw.prompt == Some(f.prompt) && raw.version == Some(f.version)
  {
    RawState(Some(f.prompt), Some(f.sources), Some(f.outline), Some(f.log), Some(f.retries),
             Some(f.retryCounts), Some(f.learningObjectives), Some(f.modules),
             f.critiqueReport, f.factcheckReport, Some(f.version))
  }

  /** The fields `from_dict` passes to the constructor: a missing key takes
      the field's default. */
  function FromDictFields(raw: RawState): StateFields
  {
    StateFields(
      Get(raw.prompt, ""),
      Get(raw.sources, []),
      Get(raw.outline, EmptyOutline()),
      Get(raw.log, []),
      Get(raw.retries, map[]),
      Get(raw.retryCounts, map[]),
      Get(raw.learningObjectives, []),
      Get(raw.modules, []),
      raw.critiqueReport,
      raw.factcheckReport,
      Get(raw.version, 1))
  }

  /** `from_dict`: constructs through the class, so `__post_init__` runs. */
  function FromDict(raw: RawState): (r: Result<StateFields>)
    ensures r.Ok? <==> PostInit(FromDictFields(raw)) == Pass
  {
    var f := FromDictFields(raw);
    var outcome := PostInit(f);
    if outcome.Fail? then Err(outcome.error) else Ok(f)
  }

  /** Missing keys take their defaults: no sources, an empty outline, empty
      maps, no reports and version 1. */
  lemma {:induction false} FromDictDefaults(raw: RawState)
    requires raw.sources.None? && raw.outline.None? && raw.retries.None? && raw.version.None?
    ensures FromDictFields(raw).sources == [] && FromDictFields(raw).outline == Outline([], [], [])
    ensures FromDictFields(raw).retries == map[] && FromDictFields(raw).version == 1
    ensures raw.critiqueReport.None? ==> FromDictFields(raw).critiqueReport.None?
  {
  }

  /** A missing prompt falls back to "", which construction rejects. */
  lemma {:induction false} FromDictNeedsPrompt(raw: RawState)
    requires raw.prompt.None? || raw.prompt == Some("")
    ensures FromDict(raw) == Err("prompt must be non-empty")
  {
  }

  /** Serialising a constructible state and reading it back gives the same
      fields. */
  lemma {:induction false} RoundTrip(f: StateFields)
    requires PostInit(f) == Pass
    ensures FromDict(ToDict(f)) == Ok(f)
  {
  }
}
