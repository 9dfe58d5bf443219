/**
  Planning and expansion of campaign runs (src/kitt/campaign/scheduler.py,
  src/kitt/campaign/models.py and the planning half of src/kitt/campaign/runner.py).
*/
module Planning {
  import opened Basics
  import opened CampaignState
  import opened GgufDiscovery

  datatype ModelSpec = ModelSpec(name: string, params: string, safetensorsRepo: Option<string>,
                                 ggufRepo: Option<string>, ollamaTag: Option<string>, estimatedSizeGb: real)

  datatype EngineSpec = EngineSpec(name: string, suite: string)

  datatype RunSpec = RunSpec(modelName: string, engineName: string, quant: string, modelPath: Option<string>,
                             repoId: Option<string>, includePattern: Option<string>,
                             estimatedSizeGb: real, suite: string)
  {
    function Key(): string { JoinKey(modelName, engineName, quant) }
  }

  /** The outside world a planning pass consults; every answer is arbitrary. */
  datatype Discovery = Discovery(
    gguf: string -> seq<QuantInfo>,         // discover_gguf_quants
    ollama: string -> seq<string>,          // discover_ollama_tags
    matches: (string, string) -> bool,      // fnmatch
    parseParams: string -> real,
    estimate: (real, string) -> real)       // estimate_quant_size_gb

  datatype QuantFilter = QuantFilter(skipPatterns: seq<string>, includeOnly: seq<string>)

  // ----- plan_runs -----

  const GGUF_PLACEHOLDER := "__discover_gguf__"
  const OLLAMA_PLACEHOLDER := "__discover_ollama__"

  function Planned(m: ModelSpec, e: EngineSpec, quant: string, repo: Option<string>): RunSpec {
    RunSpec(m.name, e.name, quant, None, repo, None, m.estimatedSizeGb, e.suite)
  }

  /** At most one run per model and engine. */
  function PlanOne(m: ModelSpec, e: EngineSpec): seq<RunSpec> {
    if e.name == "vllm" && Truthy(m.safetensorsRepo) then
      [Planned(m, e, "bf16", m.safetensorsRepo)]
    else if (e.name == "llama_cpp" || e.name == "exllamav2") && Truthy(m.ggufRepo) then
      [Planned(m, e, GGUF_PLACEHOLDER, m.ggufRepo)]
    else if e.name == "ollama" && Truthy(m.ollamaTag) then
      [Planned(m, e, OLLAMA_PLACEHOLDER, m.ollamaTag)]
    else []
  }

  function PlanModel(m: ModelSpec, engines: seq<EngineSpec>): seq<RunSpec> {
    if engines == [] then []
    else PlanModel(m, engines[..|engines| - 1]) + PlanOne(m, engines[|engines| - 1])
  }

  function Plan(models: seq<ModelSpec>, engines: seq<EngineSpec>): seq<RunSpec> {
    if models == [] then []
    else Plan(models[..|models| - 1], engines) + PlanModel(models[|models| - 1], engines)
  }

  /** The inner loop: one model against every engine. */
  method PlanModelRuns(m: ModelSpec, engines: seq<EngineSpec>) returns (runs: seq<RunSpec>)
    ensures runs == PlanModel(m, engines)
  {
    runs := [];
    for j := 0 to |engines|
      invariant runs == PlanModel(m, engines[..j])
    {
      var e := engines[j];
      assert engines[..j + 1][..j] == engines[..j];
      if e.name == "vllm" && Truthy(m.safetensorsRepo) {
        runs := runs + [RunSpec(m.name, e.name, "bf16", None, m.safetensorsRepo, None, m.estimatedSizeGb, e.suite)];
      } else if (e.name == "llama_cpp" || e.name == "exllamav2") && Truthy(m.ggufRepo) {
        runs := runs + [RunSpec(m.name, e.name, GGUF_PLACEHOLDER, None, m.ggufRepo, None, m.estimatedSizeGb, e.suite)];
      } else if e.name == "ollama" && Truthy(m.ollamaTag) {
        runs := runs + [RunSpec(m.name, e.name, OLLAMA_PLACEHOLDER, None, m.ollamaTag, None, m.estimatedSizeGb,
                                e.suite)];
      }
    }
    assert engines[..|engines|] == engines;
  }

  method PlanRuns(models: seq<ModelSpec>, engines: seq<EngineSpec>) returns (runs: seq<RunSpec>)
    ensures runs == Plan(models, engines)
  {
    runs := [];
    for i := 0 to |models|
      invariant runs == Plan(models[..i], engines)
    {
      assert models[..i + 1][..i] == models[..i];
      var more := PlanModelRuns(models[i], engines);
      runs := runs + more;
    }
    assert models[..|models|] == models;
  }

  // ----- _expand_runs -----

  /** The part of an Ollama tag after its last colon, or all of it: `tag.split(":")[-1]`. */
  function AfterLastColon(tag: string): (r: string)
    ensures ':' !in r
  {
    if tag == "" || tag[|tag| - 1] == ':' then ""
    else AfterLastColon(tag[..|tag| - 1]) + [tag[|tag| - 1]]
  }

  /** `model_params[name]`: the last model with the name wins, "" if there is none. */
  function ParamsOf(models: seq<ModelSpec>, name: string): string {
    if models == [] then ""
    else if models[|models| - 1].name == name then models[|models| - 1].params
    else ParamsOf(models[..|models| - 1], name)
  }

  /** Python's `a or b` on sizes. */
  function OrElse(a: real, b: real): real { if a != 0.0 then a else b }

  function FromQuant(d: Discovery, paramsB: real, run: RunSpec, q: QuantInfo): RunSpec {
    run.(quant := q.quantName, modelPath := None, includePattern := Some(q.includePattern),
         estimatedSizeGb := OrElse(d.estimate(paramsB, q.quantName), run.estimatedSizeGb))
  }

  function FromTag(d: Discovery, paramsB: real, run: RunSpec, tag: string): RunSpec {
    var quant := AfterLastColon(tag);
    run.(quant := quant, modelPath := None, repoId := Some(tag), includePattern := None,
         estimatedSizeGb := OrElse(d.estimate(paramsB, quant), run.estimatedSizeGb))
  }

  /** The concrete runs that one planned run stands for. */
  function ExpandOne(models: seq<ModelSpec>, filter: QuantFilter, d: Discovery, run: RunSpec): seq<RunSpec> {
    var paramsB := d.parseParams(ParamsOf(models, run.modelName));
    if run.quant == GGUF_PLACEHOLDER && Truthy(run.repoId) then
      var quants := FilterQuants(d.gguf(run.repoId.value), filter.skipPatterns, filter.includeOnly, d.matches);
      seq(|quants|, i requires 0 <= i < |quants| => FromQuant(d, paramsB, run, quants[i]))
    else if run.quant == OLLAMA_PLACEHOLDER && Truthy(run.repoId) then
      var tags := d.ollama(run.repoId.value);
      seq(|tags|, i requires 0 <= i < |tags| => FromTag(d, paramsB, run, tags[i]))
    else if run.estimatedSizeGb <= 0.0 && paramsB > 0.0 && d.estimate(paramsB, run.quant) > 0.0 then
      [run.(estimatedSizeGb := d.estimate(paramsB, run.quant))]
    else
      [run]
  }

  function Expand(models: seq<ModelSpec>, filter: QuantFilter, d: Discovery, planned: seq<RunSpec>): seq<RunSpec> {
    if planned == [] then []
    else Expand(models, filter, d, planned[..|planned| - 1]) + ExpandOne(models, filter, d, planned[|planned| - 1])
  }

  /** One pass of the expansion loop's body. */
  method ExpandRun(models: seq<ModelSpec>, filter: QuantFilter, d: Discovery, planned: RunSpec)
    returns (out: seq<RunSpec>)
    ensures out == ExpandOne(models, filter, d, planned)
  {
    var run := planned;
    ghost var want := ExpandOne(models, filter, d, planned);
    var paramsB := d.parseParams(ParamsOf(models, run.modelName));
    out := [];
    if run.quant == GGUF_PLACEHOLDER && Truthy(run.repoId) {
      var quants := FilterQuants(d.gguf(run.repoId.value), filter.skipPatterns, filter.includeOnly, d.matches);
      for j := 0 to |quants|
        invariant |want| == |quants| && out == want[..j]
      {
        out := out + [FromQuant(d, paramsB, run, quants[j])];
      }
    } else if run.quant == OLLAMA_PLACEHOLDER && Truthy(run.repoId) {
      var tags := d.ollama(run.repoId.value);
      for j := 0 to |tags|
        invariant |want| == |tags| && out == want[..j]
      {
        out := out + [FromTag(d, paramsB, run, tags[j])];
      }
    } else {
      if run.estimatedSizeGb <= 0.0 && paramsB > 0.0 {
        var estSize := d.estimate(paramsB, run.quant);
        if estSize > 0.0 {
          run := run.(estimatedSizeGb := estSize);
        }
      }
      out := [run];
    }
  }

  method ExpandRuns(models: seq<ModelSpec>, filter: QuantFilter, d: Discovery, planned: seq<RunSpec>)
    returns (expanded: seq<RunSpec>)
    ensures expanded == Expand(models, filter, d, planned)
  {
    expanded := [];
    for i := 0 to |planned|
      invariant expanded == Expand(models, filter, d, planned[..i])
    {
      assert planned[..i + 1][..i] == planned[..i];
      var more := ExpandRun(models, filter, d, planned[i]);
      expanded := expanded + more;
    }
    assert planned[..|planned|] == planned;
  }

  // ----- run keys are distinct -----

  function SpecKeys(specs: seq<RunSpec>): seq<string> {
    seq(|specs|, i requires 0 <= i < |specs| => specs[i].Key())
  }

  /** Without '|' in the first two components, the joined key determines all three. */
  lemma KeyInjective(m: string, e: string, q: string, m': string, e': string, q': string)
    requires '|' !in m && '|' !in e && '|' !in m' && '|' !in e'
    requires JoinKey(m, e, q) == JoinKey(m', e', q')
    ensures m == m' && e == e' && q == q'
  {
    var rest, rest' := e + "|" + q, e' + "|" + q';
    assert JoinKey(m, e, q) == m + "|" + rest && JoinKey(m', e', q') == m' + "|" + rest';
    SplitAtBar(m, rest, m', rest');
    SplitAtBar(e, q, e', q');
  }

  lemma SplitAtBar(a: string, b: string, a': string, b': string)
    requires '|' !in a && '|' !in a' && a + "|" + b == a' + "|" + b'
    ensures a == a' && b == b'
  {
    var s, s' := a + "|" + b, a' + "|" + b';
    assert s[|a|] == '|' && s'[|a'|] == '|';
    assert forall k :: 0 <= k < |a| ==> s[k] == a[k];
    assert forall k :: 0 <= k < |a'| ==> s'[k] == a'[k];
    assert |a| == |a'|;
    assert a == s[..|a|] && a' == s'[..|a'|];
    assert b == s[|a| + 1..] && b' == s'[|a'| + 1..];
  }

  /** What a run's key has before its quantisation. */
  function Lead(model: string, engine: string): string {
    model + "|" + engine + "|"
  }

  lemma KeyIsLead(m: string, e: string, q: string)
    ensures JoinKey(m, e, q) == Lead(m, e) + q
  {
  }

  /** Some quantisations give two model and engine pairs one key exactly when one lead starts the other. */
  lemma KeysCollideExactly(m: string, e: string, m': string, e': string)
    ensures (exists q, q' :: JoinKey(m, e, q) == JoinKey(m', e', q'))
            <==> Lead(m, e) <= Lead(m', e') || Lead(m', e') <= Lead(m, e)
  {
    hide JoinKey, Lead;
    var a, b := Lead(m, e), Lead(m', e');
    forall q, q' | JoinKey(m, e, q) == JoinKey(m', e', q')
      ensures a <= b || b <= a
    {
      KeyIsLead(m, e, q);
      KeyIsLead(m', e', q');
      assert if |a| <= |b| then a == (b + q')[..|a|] == b[..|a|] else b == (a + q)[..|b|] == a[..|b|];
    }
    if a <= b {
      KeyIsLead(m, e, b[|a|..]);
      KeyIsLead(m', e', "");
      assert JoinKey(m, e, b[|a|..]) == JoinKey(m', e', "");
    }
    if b <= a {
      KeyIsLead(m, e, "");
      KeyIsLead(m', e', a[|b|..]);
      assert JoinKey(m, e, "") == JoinKey(m', e', a[|b|..]);
    }
  }

  predicate KnownEngine(name: string) {
    name == "vllm" || name == "llama_cpp" || name == "exllamav2" || name == "ollama"
  }

  /** Only four engine names are ever planned, and none contains '|'. */
  lemma KnownEngineHasNoBar(name: string)
    requires KnownEngine(name)
    ensures '|' !in name
  {
    var vllm, llama, exl, ollama := "vllm", "llama_cpp", "exllamav2", "ollama";
    assert forall i :: 0 <= i < |vllm| ==> vllm[i] != '|';
    assert forall i :: 0 <= i < |llama| ==> llama[i] != '|';
    assert forall i :: 0 <= i < |exl| ==> exl[i] != '|';
    assert forall i :: 0 <= i < |ollama| ==> ollama[i] != '|';
  }

  /** What discovery must give: within one repository, or tag family, quants differ. */
  ghost predicate DiscoveryDistinct(d: Discovery) {
    && (forall repo :: Distinct(NamesOf(d.gguf(repo))))
    && (forall tag :: Distinct(QuantsOfTags(d.ollama(tag))))
  }

  function QuantsOfTags(tags: seq<string>): seq<string> {
    seq(|tags|, i requires 0 <= i < |tags| => AfterLastColon(tags[i]))
  }

  ghost predicate NamesClean(models: seq<ModelSpec>, engines: seq<EngineSpec>) {
    && (forall i, j :: 0 <= i < j < |models| ==> models[i].name != models[j].name)
    && (forall i, j :: 0 <= i < j < |engines| ==> engines[i].name != engines[j].name)
    && (forall i :: 0 <= i < |models| ==> '|' !in models[i].name)
  }

  /** The (model, engine) pairs of a plan are pairwise distinct. */
  ghost predicate PairsDistinct(runs: seq<RunSpec>) {
    forall i, j :: 0 <= i < j < |runs| ==>
      !(runs[i].modelName == runs[j].modelName && runs[i].engineName == runs[j].engineName)
  }

  ghost predicate PlannedFrom(runs: seq<RunSpec>, models: seq<ModelSpec>, engines: seq<EngineSpec>) {
    forall r :: r in runs ==>
      KnownEngine(r.engineName)
      && (exists m :: m in models && m.name == r.modelName)
      && (exists e :: e in engines && e.name == r.engineName)
  }

  lemma {:induction false} PlanModelPairs(m: ModelSpec, engines: seq<EngineSpec>)
    requires forall i, j :: 0 <= i < j < |engines| ==> engines[i].name != engines[j].name
    ensures PairsDistinct(PlanModel(m, engines))
    ensures PlannedFrom(PlanModel(m, engines), [m], engines)
  {
    if engines != [] {
      var front, last := engines[..|engines| - 1], engines[|engines| - 1];
      PlanModelPairs(m, front);
      var before := PlanModel(m, front);
      var after := PlanModel(m, engines);
      assert after == before + PlanOne(m, last);
      forall r | r in before
        ensures r.engineName != last.name
      {
        var e :| e in front && e.name == r.engineName;
      }
      forall r | r in after
        ensures r.modelName == m.name && KnownEngine(r.engineName) && exists e :: e in engines && e.name == r.engineName
      {
        if r in before {
          var m' :| m' in [m] && m'.name == r.modelName;
          var e :| e in front && e.name == r.engineName;
          assert e in engines;
        } else {
          assert last in engines && r.engineName == last.name;
        }
      }
      assert m in [m];
    }
  }

  lemma {:induction false} PlanPairs(models: seq<ModelSpec>, engines: seq<EngineSpec>)
    requires NamesClean(models, engines)
    ensures PairsDistinct(Plan(models, engines))
    ensures PlannedFrom(Plan(models, engines), models, engines)
  {
    if models != [] {
      var front, last := models[..|models| - 1], models[|models| - 1];
      PlanPairs(front, engines);
      PlanModelPairs(last, engines);
      var before, more := Plan(front, engines), PlanModel(last, engines);
      assert Plan(models, engines) == before + more;
      forall r | r in before
        ensures r.modelName != last.name && exists m :: m in models && m.name == r.modelName
      {
        var m :| m in front && m.name == r.modelName;
        assert m in models;
      }
      forall r | r in more
        ensures r.modelName == last.name && exists m :: m in models && m.name == r.modelName
      {
        var m :| m in [last] && m.name == r.modelName;
        assert last in models;
      }
    }
  }

  /** The runs that one planned run expands into differ in their quants. */
  lemma ExpandOneDistinct(models: seq<ModelSpec>, filter: QuantFilter, d: Discovery, run: RunSpec)
    requires DiscoveryDistinct(d)
    ensures var out := ExpandOne(models, filter, d, run);
      && (forall r :: r in out ==> r.modelName == run.modelName && r.engineName == run.engineName)
      && (forall i, j :: 0 <= i < j < |out| ==> out[i].quant != out[j].quant)
  {
    var out := ExpandOne(models, filter, d, run);
    if run.quant == GGUF_PLACEHOLDER && Truthy(run.repoId) {
      var found := d.gguf(run.repoId.value);
      FilterQuantsKeepsDistinct(found, filter.skipPatterns, filter.includeOnly, d.matches);
      var quants := FilterQuants(found, filter.skipPatterns, filter.includeOnly, d.matches);
      assert Distinct(NamesOf(quants));
      assert forall i :: 0 <= i < |out| ==> out[i].quant == NamesOf(quants)[i];
    } else if run.quant == OLLAMA_PLACEHOLDER && Truthy(run.repoId) {
      var tags := d.ollama(run.repoId.value);
      assert Distinct(QuantsOfTags(tags));
      assert forall i :: 0 <= i < |out| ==> out[i].quant == QuantsOfTags(tags)[i];
    }
  }

  predicate SamePair(a: RunSpec, b: RunSpec) {
    a.modelName == b.modelName && a.engineName == b.engineName
  }

  /** No lead of a planned pair starts the lead of a different one. */
  ghost predicate LeadsApart(runs: seq<RunSpec>) {
    forall a, b :: a in runs && b in runs && !SamePair(a, b) ==>
      !(Lead(a.modelName, a.engineName) <= Lead(b.modelName, b.engineName))
  }

  /** Expanding gives pairwise distinct keys whenever no planned pair's lead starts another's. */
  lemma {:induction false} ExpandDistinct(models: seq<ModelSpec>, filter: QuantFilter, d: Discovery,
                                          planned: seq<RunSpec>)
    requires DiscoveryDistinct(d) && PairsDistinct(planned) && LeadsApart(planned)
    ensures Distinct(SpecKeys(Expand(models, filter, d, planned)))
    ensures forall r :: r in Expand(models, filter, d, planned) ==> exists p :: p in planned && SamePair(p, r)
  {
    hide DiscoveryDistinct, LeadsApart;
    if planned != [] {
      var front, last := planned[..|planned| - 1], planned[|planned| - 1];
      FewerLeadsApart(planned, front);
      ExpandDistinct(models, filter, d, front);
      ExpandOneDistinct(models, filter, d, last);
      var before, more := Expand(models, filter, d, front), ExpandOne(models, filter, d, last);
      var all := before + more;
      assert all == Expand(models, filter, d, planned);
      assert last in planned && forall p :: p in front ==> p in planned;
      forall i, j | 0 <= i < j < |all|
        ensures all[i].Key() != all[j].Key()
      {
        if j < |before| {
          assert SpecKeys(before)[i] != SpecKeys(before)[j];
        } else {
          assert all[j] in more;
          if i < |before| {
            assert all[i] in before;
            OtherPairOtherKey(planned, all[i], all[j]);
          } else {
            assert all[i] in more;
            assert more[i - |before|].quant != more[j - |before|].quant;
            OtherPairOtherKey(planned, all[i], all[j]);
          }
        }
      }
    }
  }

  lemma FewerLeadsApart(planned: seq<RunSpec>, front: seq<RunSpec>)
    requires LeadsApart(planned) && front <= planned
    ensures LeadsApart(front)
  {
    assert forall p :: p in front ==> p in planned;
  }

  /** Runs of planned pairs have one key only if they agree in model, engine and quant. */
  lemma OtherPairOtherKey(planned: seq<RunSpec>, a: RunSpec, b: RunSpec)
    requires LeadsApart(planned)
    requires (exists p :: p in planned && SamePair(p, a)) && exists p :: p in planned && SamePair(p, b)
    ensures a.Key() == b.Key() ==> SamePair(a, b) && a.quant == b.quant
  {
    var p :| p in planned && SamePair(p, a);
    var q :| q in planned && SamePair(q, b);
    if a.Key() == b.Key() {
      KeysCollideExactly(a.modelName, a.engineName, b.modelName, b.engineName);
      assert JoinKey(a.modelName, a.engineName, a.quant) == JoinKey(b.modelName, b.engineName, b.quant);
      assert SamePair(p, q);
      KeyIsLead(a.modelName, a.engineName, a.quant);
      KeyIsLead(b.modelName, b.engineName, b.quant);
      var lead := Lead(a.modelName, a.engineName);
      assert a.quant == (lead + a.quant)[|lead|..] && b.quant == (lead + b.quant)[|lead|..];
    }
  }

  /** Without a bar in the names, no lead starts another one. */
  lemma BarFreeLeads(m: string, e: string, m': string, e': string)
    requires '|' !in m && '|' !in e && '|' !in m' && '|' !in e' && Lead(m, e) <= Lead(m', e')
    ensures m == m' && e == e'
  {
    var rest := Lead(m', e')[|Lead(m, e)|..];
    KeyIsLead(m, e, rest);
    KeyIsLead(m', e', "");
    KeyInjective(m, e, rest, m', e', "");
  }

  lemma CleanLeadsApart(models: seq<ModelSpec>, engines: seq<EngineSpec>, planned: seq<RunSpec>)
    requires NamesClean(models, engines) && PlannedFrom(planned, models, engines)
    ensures LeadsApart(planned)
  {
    forall a, b | a in planned && b in planned && Lead(a.modelName, a.engineName) <= Lead(b.modelName, b.engineName)
      ensures SamePair(a, b)
    {
      NoBarIn(models, engines, planned, a);
      NoBarIn(models, engines, planned, b);
      BarFreeLeads(a.modelName, a.engineName, b.modelName, b.engineName);
    }
  }

  lemma NoBarIn(models: seq<ModelSpec>, engines: seq<EngineSpec>, planned: seq<RunSpec>, p: RunSpec)
    requires NamesClean(models, engines) && PlannedFrom(planned, models, engines) && p in planned
    ensures '|' !in p.modelName && '|' !in p.engineName
  {
    var m :| m in models && m.name == p.modelName;
    KnownEngineHasNoBar(p.engineName);
  }

  /**
    Planning and expanding gives pairwise distinct run keys with distinct names and no
    bar in model names. Engine names need no condition beyond distinctness, and quants
    may contain '|'.
  */
  lemma PlannedKeysDistinct(models: seq<ModelSpec>, engines: seq<EngineSpec>, filter: QuantFilter, d: Discovery)
    requires NamesClean(models, engines) && DiscoveryDistinct(d)
    ensures Distinct(SpecKeys(Expand(models, filter, d, Plan(models, engines))))
  {
    hide NamesClean, DiscoveryDistinct, Distinct, SpecKeys, Expand, LeadsApart, PairsDistinct, PlannedFrom;
    PlanPairs(models, engines);
    CleanLeadsApart(models, engines, Plan(models, engines));
    ExpandDistinct(models, filter, d, Plan(models, engines));
  }

  // ----- a plan with a collision -----

  /** The one run of a model whose repository holds a single variant. */
  lemma OneVariant(models: seq<ModelSpec>, m: ModelSpec, e: EngineSpec, d: Discovery, quant: string)
    requires e.name == "llama_cpp" && Truthy(m.ggufRepo) && NamesOf(d.gguf(m.ggufRepo.value)) == [quant]
    ensures |PlanOne(m, e)| == 1
    ensures var out := ExpandOne(models, QuantFilter([], []), d, PlanOne(m, e)[0]);
      |out| == 1 && out[0].Key() == JoinKey(m.name, "llama_cpp", quant)
  {
    hide JoinKey;
    var found := d.gguf(m.ggufRepo.value);
    assert |found| == |NamesOf(found)| == 1 && found[0].quantName == NamesOf(found)[0];
    assert FilterQuants(found, [], [], d.matches) == found;
    assert |"llama_cpp"| != |"vllm"|;
  }

  lemma OneEnginePlan(m: ModelSpec, e: EngineSpec)
    ensures PlanModel(m, [e]) == PlanOne(m, e)
  {
    hide PlanOne;
    assert [e][..|[e]| - 1] == [];
    assert PlanModel(m, []) + PlanOne(m, e) == PlanOne(m, e);
  }

  lemma OneModelPlan(m: ModelSpec, e: EngineSpec)
    ensures Plan([m], [e]) == PlanOne(m, e)
  {
    hide PlanOne, PlanModel;
    OneEnginePlan(m, e);
    assert [m][..|[m]| - 1] == [];
    assert Plan([], [e]) + PlanModel(m, [e]) == PlanModel(m, [e]);
  }

  lemma TwoModelPlan(m1: ModelSpec, m2: ModelSpec, e: EngineSpec)
    ensures Plan([m1, m2], [e]) == PlanOne(m1, e) + PlanOne(m2, e)
  {
    hide PlanOne, PlanModel;
    OneModelPlan(m1, e);
    OneEnginePlan(m2, e);
    assert [m1, m2][..|[m1, m2]| - 1] == [m1];
  }

  lemma OneRunExpansion(models: seq<ModelSpec>, filter: QuantFilter, d: Discovery, a: RunSpec)
    ensures Expand(models, filter, d, [a]) == ExpandOne(models, filter, d, a)
  {
    hide ExpandOne;
    assert [a][..|[a]| - 1] == [];
    assert Expand(models, filter, d, []) + ExpandOne(models, filter, d, a) == ExpandOne(models, filter, d, a);
  }

  lemma TwoRunExpansion(models: seq<ModelSpec>, filter: QuantFilter, d: Discovery, a: RunSpec, b: RunSpec)
    ensures Expand(models, filter, d, [a, b]) == ExpandOne(models, filter, d, a) + ExpandOne(models, filter, d, b)
  {
    hide ExpandOne;
    OneRunExpansion(models, filter, d, a);
    assert [a, b][..|[a, b]| - 1] == [a];
  }

  /**
    Two models with distinct names, one engine, and one variant in each repository: with
    bars in a name and in a quant the plan holds two different runs under one key.
  */
  lemma PlanWithCollision(m1: ModelSpec, m2: ModelSpec, e: EngineSpec, d: Discovery, part: string, quant: string)
    requires e.name == "llama_cpp" && Truthy(m1.ggufRepo) && Truthy(m2.ggufRepo)
    requires m2.name == m1.name + "|llama_cpp|" + part
    requires NamesOf(d.gguf(m1.ggufRepo.value)) == [part + "|llama_cpp|" + quant]
    requires NamesOf(d.gguf(m2.ggufRepo.value)) == [quant]
    ensures m1.name != m2.name
    ensures var runs := Expand([m1, m2], QuantFilter([], []), d, Plan([m1, m2], [e]));
      |runs| == 2 && runs[0].Key() == runs[1].Key()
  {
    hide ExpandOne, PlanOne;
    OneVariant([m1, m2], m1, e, d, part + "|llama_cpp|" + quant);
    OneVariant([m1, m2], m2, e, d, quant);
    TwoModelPlan(m1, m2, e);
    TwoRunExpansion([m1, m2], QuantFilter([], []), d, PlanOne(m1, e)[0], PlanOne(m2, e)[0]);
    assert PlanOne(m1, e) + PlanOne(m2, e) == [PlanOne(m1, e)[0], PlanOne(m2, e)[0]];
    BarsRegroup(m1.name, part, quant);
  }

  lemma BarsRegroup(m: string, part: string, quant: string)
    ensures JoinKey(m, "llama_cpp", part + "|llama_cpp|" + quant)
            == JoinKey(m + "|llama_cpp|" + part, "llama_cpp", quant)
  {
    var middle := "|" + "llama_cpp" + "|";
    assert middle == "|llama_cpp|";
    assert JoinKey(m, "llama_cpp", part + middle + quant) == m + middle + (part + middle + quant);
    assert JoinKey(m + middle + part, "llama_cpp", quant) == (m + middle + part) + middle + quant;
  }

  /** Only what follows the last colon of the variant matters. */
  lemma {:induction false} AfterLastColonOf(head: string, tag: string)
    ensures AfterLastColon(head + ":" + tag) == AfterLastColon(tag)
  {
    var whole := head + ":" + tag;
    if tag != "" && tag[|tag| - 1] != ':' {
      AfterLastColonOf(head, tag[..|tag| - 1]);
      assert whole[..|whole| - 1] == head + ":" + tag[..|tag| - 1];
    }
  }

  lemma {:induction false} ColonFree(tag: string)
    requires ':' !in tag
    ensures AfterLastColon(tag) == tag
  {
    if tag != "" {
      assert tag[|tag| - 1] in tag && forall c :: c in tag[..|tag| - 1] ==> c in tag;
      ColonFree(tag[..|tag| - 1]);
    }
  }

  /** Ollama tags of one model whose own parts are distinct and colon-free give distinct quants. */
  lemma OllamaQuantsDistinct(name: string, parts: seq<string>)
    requires Distinct(parts) && forall i :: 0 <= i < |parts| ==> ':' !in parts[i]
    ensures Distinct(QuantsOfTags(seq(|parts|, i requires 0 <= i < |parts| => name + ":" + parts[i])))
  {
    var quants := QuantsOfTags(seq(|parts|, i requires 0 <= i < |parts| => name + ":" + parts[i]));
    forall i | 0 <= i < |parts|
      ensures quants[i] == parts[i]
    {
      AfterLastColonOf(name, parts[i]);
      ColonFree(parts[i]);
    }
  }
}
