/**
  Which runs a plan holds, and what expansion makes of each, on the fields of models,
  engines and discovered variants (src/kitt/campaign/scheduler.py and runner.py).
*/
module PlanMeaning {
  import opened Basics
  import opened GgufDiscovery
  import opened Planning
  import opened Picking

  // ----- planning -----

  /** Every model with every engine, models first. */
  function Pairs(models: seq<ModelSpec>, engines: seq<EngineSpec>): seq<(ModelSpec, EngineSpec)> {
    if models == [] then []
    else Pairs(models[..|models| - 1], engines) + PairsOf(models[|models| - 1], engines)
  }

  function PairsOf(m: ModelSpec, engines: seq<EngineSpec>): seq<(ModelSpec, EngineSpec)> {
    seq(|engines|, j requires 0 <= j < |engines| => (m, engines[j]))
  }

  /** Where an engine finds a model, and under which quantisation it is planned. */
  function Source(m: ModelSpec, e: EngineSpec): Option<(Option<string>, string)> {
    if e.name == "vllm" then Some((m.safetensorsRepo, "bf16"))
    else if e.name in {"llama_cpp", "exllamav2"} then Some((m.ggufRepo, "__discover_gguf__"))
    else if e.name == "ollama" then Some((m.ollamaTag, "__discover_ollama__"))
    else None
  }

  /** The planned run of a model on an engine that has it, with the model's size and the engine's suite. */
  function PlannedRun(): ((ModelSpec, EngineSpec)) -> Option<RunSpec> {
    (x: (ModelSpec, EngineSpec)) =>
      match Source(x.0, x.1)
      case Some((Some(repo), quant)) =>
        if repo == "" then None
        else Some(RunSpec(x.0.name, x.1.name, quant, None, Some(repo), None, x.0.estimatedSizeGb, x.1.suite))
      case _ => None
  }

  lemma OnePlanned(m: ModelSpec, e: EngineSpec)
    ensures PlanOne(m, e) == One(PlannedRun()((m, e)))
  {
  }

  lemma {:induction false} ModelPicked(m: ModelSpec, engines: seq<EngineSpec>)
    ensures Picked(PairsOf(m, engines), PlannedRun(), PlanModel(m, engines))
  {
    hide Picked, PlanOne, Source, PlannedRun;
    var pick := PlannedRun();
    if engines == [] {
      PickedNone(pick);
      assert PairsOf(m, engines) == [];
    } else {
      var front, last := engines[..|engines| - 1], engines[|engines| - 1];
      ModelPicked(m, front);
      PickedSnoc(PairsOf(m, front), pick, PlanModel(m, front), (m, last));
      OnePlanned(m, last);
      assert PairsOf(m, engines) == PairsOf(m, front) + [(m, last)];
    }
  }

  /** The plan holds, model by model and engine by engine, exactly the pairs whose engine has the model. */
  lemma {:induction false} PlanExactly(models: seq<ModelSpec>, engines: seq<EngineSpec>)
    ensures Picked(Pairs(models, engines), PlannedRun(), Plan(models, engines))
  {
    hide Picked, PlanModel, PlannedRun, PairsOf;
    var pick := PlannedRun();
    if models == [] {
      PickedNone(pick);
    } else {
      var front, last := models[..|models| - 1], models[|models| - 1];
      PlanExactly(front, engines);
      ModelPicked(last, engines);
      PickedConcat(Pairs(front, engines), PairsOf(last, engines), pick, Plan(front, engines), PlanModel(last, engines));
    }
  }

  // ----- expansion -----

  /** A variant that no skip pattern matches and, if any names are asked for, one of them does. */
  function WantedVariant(filter: QuantFilter, d: Discovery): QuantInfo -> Option<QuantInfo> {
    (q: QuantInfo) =>
      if (exists i :: 0 <= i < |filter.skipPatterns| && d.matches(q.quantName, filter.skipPatterns[i]))
         || (filter.includeOnly != []
             && !exists i :: 0 <= i < |filter.includeOnly| && d.matches(q.quantName, filter.includeOnly[i]))
      then None else Some(q)
  }

  /** Whether a variant passes one filter. */
  function Kept(p: string -> bool): QuantInfo -> Option<QuantInfo> {
    (q: QuantInfo) => if p(q.quantName) then Some(q) else None
  }

  lemma {:induction false} KeepPicked(quants: seq<QuantInfo>, p: string -> bool)
    ensures Picked(quants, Kept(p), Keep(quants, p))
  {
    hide Picked;
    var pick := Kept(p);
    PickedNone(pick);
    if quants != [] {
      var first, rest := [quants[0]], quants[1..];
      PickedSnoc([], pick, [], quants[0]);
      assert [] + first == first && [] + One(pick(quants[0])) == One(pick(quants[0]));
      KeepPicked(rest, p);
      PickedConcat(first, rest, pick, One(pick(quants[0])), Keep(rest, p));
      assert quants == first + rest;
    }
  }

  /** Filtering twice is filtering by both. */
  lemma {:induction false} KeepTwice(quants: seq<QuantInfo>, p: string -> bool, q: string -> bool, both: string -> bool)
    requires forall name :: both(name) <==> p(name) && q(name)
    ensures Keep(Keep(quants, p), q) == Keep(quants, both)
  {
    if quants != [] {
      KeepTwice(quants[1..], p, q, both);
      assert ([quants[0]] + Keep(quants[1..], p))[1..] == Keep(quants[1..], p);
      assert [] + Keep(quants[1..], p) == Keep(quants[1..], p);
    }
  }

  lemma {:induction false} KeepAll(quants: seq<QuantInfo>, p: string -> bool)
    requires forall name :: p(name)
    ensures Keep(quants, p) == quants
  {
    if quants != [] {
      KeepAll(quants[1..], p);
    }
  }

  lemma {:induction false} KeepSame(quants: seq<QuantInfo>, p: string -> bool, q: string -> bool)
    requires forall name :: p(name) <==> q(name)
    ensures Keep(quants, p) == Keep(quants, q)
  {
    if quants != [] {
      KeepSame(quants[1..], p, q);
    }
  }

  function Asked(filter: QuantFilter, d: Discovery): string -> bool {
    name => !AnyMatch(d.matches, name, filter.skipPatterns)
            && (filter.includeOnly == [] || AnyMatch(d.matches, name, filter.includeOnly))
  }

  /** The filters keep exactly the wanted variants, in order. */
  lemma FilteredExactly(quants: seq<QuantInfo>, filter: QuantFilter, d: Discovery)
    ensures Picked(quants, WantedVariant(filter, d),
                   FilterQuants(quants, filter.skipPatterns, filter.includeOnly, d.matches))
  {
    hide Picked, Keep, AnyMatch;
    var skip, ask := NoneOf(d.matches, filter.skipPatterns), SomeOf(d.matches, filter.includeOnly);
    NothingMatchesNone(d.matches);
    if filter.skipPatterns == [] {
      KeepAll(quants, skip);
    }
    var kept := Keep(quants, skip);
    var every: string -> bool := _ => true;
    KeepAll(kept, every);
    var second := if filter.includeOnly == [] then every else ask;
    KeepTwice(quants, skip, second, Asked(filter, d));
    KeepPicked(quants, Asked(filter, d));
    SamePick(quants, filter, d, Keep(quants, Asked(filter, d)));
  }

  lemma MatchesSome(matches: (string, string) -> bool, name: string, patterns: seq<string>)
    ensures AnyMatch(matches, name, patterns) <==> exists i :: 0 <= i < |patterns| && matches(name, patterns[i])
  {
  }

  lemma SameVerdict(filter: QuantFilter, d: Discovery, q: QuantInfo)
    ensures Kept(Asked(filter, d))(q) == WantedVariant(filter, d)(q)
  {
    hide AnyMatch;
    MatchesSome(d.matches, q.quantName, filter.skipPatterns);
    MatchesSome(d.matches, q.quantName, filter.includeOnly);
  }

  lemma SamePick(quants: seq<QuantInfo>, filter: QuantFilter, d: Discovery, out: seq<QuantInfo>)
    requires Picked(quants, Kept(Asked(filter, d)), out)
    ensures Picked(quants, WantedVariant(filter, d), out)
  {
    hide Kept, Asked, WantedVariant, Picked;
    forall q: QuantInfo
      ensures Kept(Asked(filter, d))(q) == WantedVariant(filter, d)(q)
    {
      SameVerdict(filter, d, q);
    }
    PickedAlike(quants, Kept(Asked(filter, d)), WantedVariant(filter, d), out);
  }

  /** The parameter count that sizes are estimated from: that of the last model of this name. */
  lemma {:induction false} ParamsExactly(models: seq<ModelSpec>, name: string, i: nat)
    requires i < |models| && models[i].name == name && forall j :: i < j < |models| ==> models[j].name != name
    ensures ParamsOf(models, name) == models[i].params
  {
    if i < |models| - 1 {
      ParamsExactly(models[..|models| - 1], name, i);
    }
  }

  lemma {:induction false} NoParams(models: seq<ModelSpec>, name: string)
    requires forall j :: 0 <= j < |models| ==> models[j].name != name
    ensures ParamsOf(models, name) == ""
  {
    if models != [] {
      NoParams(models[..|models| - 1], name);
    }
  }

  /** The size of a concrete run: the estimate, unless that is 0. */
  ghost predicate IsSized(d: Discovery, paramsB: real, planned: RunSpec, r: RunSpec) {
    r.estimatedSizeGb == var est := d.estimate(paramsB, r.quant); if est == 0.0 then planned.estimatedSizeGb else est
  }

  /** A run of the planned model on the planned engine with the planned suite. */
  ghost predicate IsRunOf(planned: RunSpec, r: RunSpec) {
    r.modelName == planned.modelName && r.engineName == planned.engineName && r.suite == planned.suite
  }

  /** One run for each wanted variant, in order, that fetches the variant's files from the planned repository. */
  ghost predicate FromVariants(d: Discovery, paramsB: real, planned: RunSpec, wanted: seq<QuantInfo>,
                               out: seq<RunSpec>) {
    && |out| == |wanted|
    && forall j :: 0 <= j < |out| ==>
         && IsRunOf(planned, out[j]) && out[j].repoId == planned.repoId && out[j].modelPath == None
         && out[j].quant == wanted[j].quantName && out[j].includePattern == Some(wanted[j].includePattern)
         && IsSized(d, paramsB, planned, out[j])
  }

  /** tag ends in the quantisation name: all of it, or what follows its last colon. */
  ghost predicate NamesQuant(tag: string, quant: string) {
    ':' !in quant && (tag == quant || exists head :: tag == head + ":" + quant)
  }

  /** One run for each tag, in order, that pulls the tag. */
  ghost predicate FromTags(d: Discovery, paramsB: real, planned: RunSpec, tags: seq<string>, out: seq<RunSpec>) {
    && |out| == |tags|
    && forall j :: 0 <= j < |out| ==>
         && IsRunOf(planned, out[j]) && out[j].repoId == Some(tags[j]) && out[j].modelPath == None
         && NamesQuant(tags[j], out[j].quant) && out[j].includePattern == None
         && IsSized(d, paramsB, planned, out[j])
  }

  /** The run itself; one without a size gets a positive estimate, if there is one. */
  ghost predicate FromItself(d: Discovery, paramsB: real, planned: RunSpec, out: seq<RunSpec>) {
    && |out| == 1 && out[0].(estimatedSizeGb := 0.0) == planned.(estimatedSizeGb := 0.0)
    && var est := d.estimate(paramsB, planned.quant);
       out[0].estimatedSizeGb == if planned.estimatedSizeGb <= 0.0 && paramsB > 0.0 && est > 0.0 then est
                                 else planned.estimatedSizeGb
  }

  lemma {:induction false} QuantOfTag(tag: string)
    ensures NamesQuant(tag, AfterLastColon(tag))
  {
    if tag != "" && tag[|tag| - 1] != ':' {
      var front, last := tag[..|tag| - 1], tag[|tag| - 1];
      QuantOfTag(front);
      assert tag == front + [last];
      if front == AfterLastColon(front) {
        assert tag == AfterLastColon(tag);
      } else {
        var head :| front == head + ":" + AfterLastColon(front);
        assert tag == head + ":" + AfterLastColon(tag);
      }
    } else if tag != "" {
      var front := tag[..|tag| - 1];
      assert tag == front + ":" + "";
    }
  }

  /** What one planned run is expanded to. */
  lemma ExpandOneExactly(models: seq<ModelSpec>, filter: QuantFilter, d: Discovery, planned: RunSpec)
    returns (wanted: seq<QuantInfo>)
    ensures var out := ExpandOne(models, filter, d, planned);
      var paramsB := d.parseParams(ParamsOf(models, planned.modelName));
      if planned.quant == "__discover_gguf__" && planned.repoId.Some? && planned.repoId.value != "" then
        && Picked(d.gguf(planned.repoId.value), WantedVariant(filter, d), wanted)
        && FromVariants(d, paramsB, planned, wanted, out)
      else if planned.quant == "__discover_ollama__" && planned.repoId.Some? && planned.repoId.value != "" then
        FromTags(d, paramsB, planned, d.ollama(planned.repoId.value), out)
      else FromItself(d, paramsB, planned, out)
  {
    hide Picked, FilterQuants, AfterLastColon, ParamsOf, NamesQuant;
    wanted := [];
    if Truthy(planned.repoId) {
      if planned.quant == GGUF_PLACEHOLDER {
        var found := d.gguf(planned.repoId.value);
        FilteredExactly(found, filter, d);
        wanted := FilterQuants(found, filter.skipPatterns, filter.includeOnly, d.matches);
      } else if planned.quant == OLLAMA_PLACEHOLDER {
        var tags := d.ollama(planned.repoId.value);
        forall j | 0 <= j < |tags|
          ensures NamesQuant(tags[j], AfterLastColon(tags[j]))
        {
          QuantOfTag(tags[j]);
        }
      }
    }
  }

  /** Planned runs are expanded one after another. */
  lemma {:induction false} ExpandConcat(models: seq<ModelSpec>, filter: QuantFilter, d: Discovery, a: seq<RunSpec>,
                                        b: seq<RunSpec>)
    ensures Expand(models, filter, d, a + b) == Expand(models, filter, d, a) + Expand(models, filter, d, b)
    ensures |b| == 1 ==> Expand(models, filter, d, b) == ExpandOne(models, filter, d, b[0])
  {
    hide ExpandOne;
    if b == [] {
      assert a + b == a;
    } else {
      var front, last := b[..|b| - 1], b[|b| - 1];
      ExpandConcat(models, filter, d, a, front);
      assert (a + b)[..|a + b| - 1] == a + front;
      if |b| == 1 {
        OneRunExpansion(models, filter, d, b[0]);
        assert b == [b[0]];
      }
    }
  }
}
