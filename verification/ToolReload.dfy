/**
 pkg/mcp/mcp.go: the two-phase reload of tools, prompts, resources and resource templates.

 `Env` gathers what the reload calls into and does not control: validating a configuration,
 collecting the applicable items from a configuration and the state of the clusters, and
 converting one item to its SDK form. The SDK's registries are its feature sets
 (vendor/github.com/modelcontextprotocol/go-sdk/mcp/features.go).
 */
module ToolReload {
  import opened Common
  import opened Configuration

  datatype Item = Item(name: string, definition: string)

  /** A converted item with its handler; `id` is the key under which the SDK files it. */
  datatype SdkItem = SdkItem(id: string, definition: string)

  datatype Converted = Converted(name: string, item: SdkItem)

  type Registry = map<string, SdkItem>
  type Conversion = Item -> Result<SdkItem, string>

  /** One of each for tools, prompts, resources and resource templates. */
  datatype Surface<+X> = Surface(tools: X, prompts: X, resources: X, templates: X)

  datatype Clusters = Clusters(snapshot: string)

  datatype Env = Env(
    validate: StaticConfig -> bool,
    collect: (StaticConfig, Clusters) -> Surface<seq<Item>>,
    convert: Surface<Conversion>)

  // ---------------------------------------------------------------- the SDK's feature set

  class FeatureSet {
    var features: Registry

    constructor ()
      ensures features == map[]
    {
      features := map[];
    }

    method Add(item: SdkItem)
      modifies this
      ensures features == old(features)[item.id := item]
    {
      features := features[item.id := item];
    }

    method Remove(ids: seq<string>)
      modifies this
      ensures features == old(features) - (set id | id in ids)
    {
      for i := 0 to |ids|
        invariant features == old(features) - (set id | id in ids[..i])
      {
        features := features - {ids[i]};
      }
      assert ids[..|ids|] == ids;
    }
  }

  // ---------------------------------------------------------------- convert and commit

  predicate Convertible(items: seq<Item>, convert: Conversion) {
    forall i :: 0 <= i < |items| ==> convert(items[i]).Ok?
  }

  function ConvertAll(items: seq<Item>, convert: Conversion): (converted: seq<Converted>)
    requires Convertible(items, convert)
    ensures |converted| == |items|
  {
    seq(|items|, i requires 0 <= i < |items| => Converted(items[i].name, convert(items[i]).value))
  }

  /** One bad item fails the batch, and the error names the first one. */
  method ConvertItems(items: seq<Item>, convert: Conversion) returns (r: Result<seq<Converted>, string>)
    ensures r.Ok? <==> Convertible(items, convert)
    ensures r.Ok? ==> r.value == ConvertAll(items, convert)
    ensures r.Err? ==> exists i :: 0 <= i < |items| && convert(items[i]).Err? && r.error == items[i].name
                                   && Convertible(items[..i], convert)
  {
    var out: seq<Converted> := [];
    for i := 0 to |items|
      invariant Convertible(items[..i], convert)
      invariant out == ConvertAll(items[..i], convert)
    {
      var c := convert(items[i]);
      if c.Err? { return Err(items[i].name); }
      out := out + [Converted(items[i].name, c.value)];
    }
    assert items[..|items|] == items;
    r := Ok(out);
  }

  function Names(items: seq<Converted>): (names: seq<string>)
    ensures |names| == |items| && forall i :: 0 <= i < |items| ==> names[i] == items[i].name
  {
    seq(|items|, i requires 0 <= i < |items| => items[i].name)
  }

  /** Adding items one by one: a later item of the same id replaces an earlier one. */
  function AddAll(registry: Registry, items: seq<Converted>): Registry {
    if items == [] then registry
    else AddAll(registry, items[..|items| - 1])[items[|items| - 1].item.id := items[|items| - 1].item]
  }

  function LastWins(items: seq<Converted>): Registry {
    AddAll(map[], items)
  }

  function Stale(previous: seq<string>, items: seq<Converted>): set<string> {
    set name | name in previous && name !in Names(items)
  }

  function Committed(registry: Registry, previous: seq<string>, items: seq<Converted>): Registry {
    AddAll(registry - Stale(previous, items), items)
  }

  method CommitItems(previous: seq<string>, items: seq<Converted>, registry: FeatureSet) returns (enabled: seq<string>)
    modifies registry
    ensures registry.features == Committed(old(registry.features), previous, items)
    ensures enabled == Names(items)
  {
    enabled := [];
    for i := 0 to |items|
      invariant enabled == Names(items[..i])
    {
      enabled := enabled + [items[i].name];
    }
    assert items[..|items|] == items;
    var toRemove: seq<string> := [];
    for i := 0 to |previous|
      invariant forall name :: name in toRemove <==> name in previous[..i] && name !in enabled
    {
      if previous[i] !in enabled {
        toRemove := toRemove + [previous[i]];
      }
    }
    assert previous[..|previous|] == previous;
    assert (set name | name in toRemove) == Stale(previous, items);
    registry.Remove(toRemove);
    ghost var kept := registry.features;
    for i := 0 to |items|
      invariant registry.features == AddAll(kept, items[..i])
    {
      assert items[..i + 1][..i] == items[..i];
      registry.Add(items[i].item);
    }
  }

  /** What last-wins means: each id maps to the last item that carries it. */
  lemma {:induction false} LastWinsMeaning(items: seq<Converted>, id: string)
    ensures id in LastWins(items) <==> exists i :: 0 <= i < |items| && items[i].item.id == id
    ensures id in LastWins(items) ==>
              exists i :: 0 <= i < |items| && items[i].item.id == id && LastWins(items)[id] == items[i].item
                          && forall j :: i < j < |items| ==> items[j].item.id != id
  {
    if items != [] {
      var n := |items| - 1;
      var front := items[..n];
      LastWinsMeaning(front, id);
      if items[n].item.id != id && id in LastWins(front) {
        var i :| 0 <= i < n && front[i].item.id == id && LastWins(front)[id] == front[i].item
                 && forall j :: i < j < n ==> front[j].item.id != id;
        assert items[i].item.id == id;
        forall j | i < j < |items| ensures items[j].item.id != id {
          if j < n { assert front[j] == items[j]; }
        }
      }
      if i :| 0 <= i < n && items[i].item.id == id {
        assert front[i].item.id == id;
      }
    }
  }

  /** The conversions keep the name, so names and registry keys are the same strings. */
  predicate NamedByKey(items: seq<Converted>) {
    forall i :: 0 <= i < |items| ==> items[i].item.id == items[i].name
  }

  lemma {:induction false} AddAllSplits(registry: Registry, items: seq<Converted>)
    ensures AddAll(registry, items) == registry + LastWins(items)
  {
    if items != [] {
      AddAllSplits(registry, items[..|items| - 1]);
    }
  }

  lemma KeysAreNames(items: seq<Converted>)
    requires NamedByKey(items)
    ensures LastWins(items).Keys == set name | name in Names(items)
  {
    forall id ensures id in LastWins(items) <==> id in Names(items) {
      LastWinsMeaning(items, id);
      if id in Names(items) {
        var i :| 0 <= i < |items| && Names(items)[i] == id;
        assert items[i].item.id == id;
      }
    }
  }

  /**
   A commit turns the registry into exactly the new items when, and only when, every other
   key of the registry was on the previous enabled list.
   */
  lemma CommitExactlyWhen(registry: Registry, previous: seq<string>, items: seq<Converted>)
    requires NamedByKey(items)
    ensures Committed(registry, previous, items) == LastWins(items)
       <==> forall key :: key in registry && key !in Names(items) ==> key in previous
  {
    KeysAreNames(items);
    AddAllSplits(registry - Stale(previous, items), items);
    var committed := Committed(registry, previous, items);
    if committed == LastWins(items) {
      forall key | key in registry && key !in Names(items) ensures key in previous {
        assert key !in LastWins(items).Keys;
        assert key !in committed;
      }
    }
    if forall key :: key in registry && key !in Names(items) ==> key in previous {
      assert committed == LastWins(items);
    }
  }

  // ---------------------------------------------------------------- one reload, start to finish

  /** What a Server holds: the live configuration, the registries and the enabled lists. */
  datatype Server = Server(config: StaticConfig, registries: Surface<Registry>, enabled: Surface<seq<string>>)

  predicate AllConvertible(env: Env, items: Surface<seq<Item>>) {
    && Convertible(items.tools, env.convert.tools)
    && Convertible(items.prompts, env.convert.prompts)
    && Convertible(items.resources, env.convert.resources)
    && Convertible(items.templates, env.convert.templates)
  }

  function Batch(env: Env, items: Surface<seq<Item>>): Surface<seq<Converted>>
    requires AllConvertible(env, items)
  {
    Surface(ConvertAll(items.tools, env.convert.tools), ConvertAll(items.prompts, env.convert.prompts),
            ConvertAll(items.resources, env.convert.resources), ConvertAll(items.templates, env.convert.templates))
  }

  function CommittedSurface(server: Server, batch: Surface<seq<Converted>>): Surface<Registry> {
    Surface(Committed(server.registries.tools, server.enabled.tools, batch.tools),
            Committed(server.registries.prompts, server.enabled.prompts, batch.prompts),
            Committed(server.registries.resources, server.enabled.resources, batch.resources),
            Committed(server.registries.templates, server.enabled.templates, batch.templates))
  }

  function NamesSurface(batch: Surface<seq<Converted>>): Surface<seq<string>> {
    Surface(Names(batch.tools), Names(batch.prompts), Names(batch.resources), Names(batch.templates))
  }

  function LastWinsSurface(batch: Surface<seq<Converted>>): Surface<Registry> {
    Surface(LastWins(batch.tools), LastWins(batch.prompts), LastWins(batch.resources), LastWins(batch.templates))
  }

  function ChosenConfig(server: Server, candidate: Option<StaticConfig>): StaticConfig {
    if candidate.Some? then candidate.value else server.config
  }

  predicate Accepts(env: Env, server: Server, candidate: Option<StaticConfig>, clusters: Clusters) {
    AllConvertible(env, env.collect(ChosenConfig(server, candidate), clusters))
  }

  /** applyToolsets run alone: None re-applies the live configuration. */
  function Apply(env: Env, server: Server, candidate: Option<StaticConfig>, clusters: Clusters): Server {
    if !Accepts(env, server, candidate, clusters) then server
    else
      var cfg := ChosenConfig(server, candidate);
      var batch := Batch(env, env.collect(cfg, clusters));
      Server(cfg, CommittedSurface(server, batch), NamesSurface(batch))
  }

  /** A call goes through exactly when every item converts, of all four kinds, for the configuration it is about. */
  lemma AcceptsExactlyWhen(env: Env, server: Server, candidate: Option<StaticConfig>, clusters: Clusters)
    ensures var items := env.collect(if candidate.Some? then candidate.value else server.config, clusters);
            Accepts(env, server, candidate, clusters) <==>
              && (forall x :: x in items.tools ==> env.convert.tools(x).Ok?)
              && (forall x :: x in items.prompts ==> env.convert.prompts(x).Ok?)
              && (forall x :: x in items.resources ==> env.convert.resources(x).Ok?)
              && (forall x :: x in items.templates ==> env.convert.templates(x).Ok?)
  {
    var items := env.collect(ChosenConfig(server, candidate), clusters);
    AllConvert(items.tools, env.convert.tools);
    AllConvert(items.prompts, env.convert.prompts);
    AllConvert(items.resources, env.convert.resources);
    AllConvert(items.templates, env.convert.templates);
  }

  lemma AllConvert(items: seq<Item>, convert: Conversion)
    ensures Convertible(items, convert) <==> forall x :: x in items ==> convert(x).Ok?
  {
    assert forall i :: 0 <= i < |items| ==> items[i] in items;
  }

  /** A call that goes through leaves the configuration it is about, and the names of its items as the enabled lists. */
  lemma ApplyMeaning(env: Env, server: Server, candidate: Option<StaticConfig>, clusters: Clusters)
    ensures var next := Apply(env, server, candidate, clusters);
            if !Accepts(env, server, candidate, clusters) then next == server
            else
              var config := if candidate.Some? then candidate.value else server.config;
              var items := env.collect(config, clusters);
              && next.config == config
              && NamedAs(next.enabled.tools, items.tools) && NamedAs(next.enabled.prompts, items.prompts)
              && NamedAs(next.enabled.resources, items.resources) && NamedAs(next.enabled.templates, items.templates)
  {
  }

  predicate NamedAs(names: seq<string>, items: seq<Item>) {
    |names| == |items| && forall i :: 0 <= i < |items| ==> names[i] == items[i].name
  }

  class ServerObject {
    var configuration: StaticConfig
    const tools: FeatureSet
    const prompts: FeatureSet
    const resources: FeatureSet
    const templates: FeatureSet
    var enabled: Surface<seq<string>>

    ghost predicate Valid() {
      && tools != prompts && tools != resources && tools != templates
      && prompts != resources && prompts != templates && resources != templates
    }

    function Abs(): Server
      reads this, tools, prompts, resources, templates
    {
      Server(configuration, Surface(tools.features, prompts.features, resources.features, templates.features), enabled)
    }

    constructor (configuration: StaticConfig)
      ensures Valid() && Abs() == Initial(configuration)
      ensures fresh(tools) && fresh(prompts) && fresh(resources) && fresh(templates)
    {
      this.configuration := configuration;
      tools := new FeatureSet();
      prompts := new FeatureSet();
      resources := new FeatureSet();
      templates := new FeatureSet();
      enabled := Surface([], [], [], []);
    }

    /** All four conversions come first, so an error returns with nothing touched. */
    method ApplyToolsets(env: Env, candidate: Option<StaticConfig>, clusters: Clusters) returns (ok: bool)
      requires Valid()
      modifies this, tools, prompts, resources, templates
      ensures Valid()
      ensures ok <==> Accepts(env, old(Abs()), candidate, clusters)
      ensures Abs() == Apply(env, old(Abs()), candidate, clusters)
    {
      var cfg := configuration;
      if candidate.Some? { cfg := candidate.value; }
      var applicable := env.collect(cfg, clusters);
      var convertedTools := ConvertItems(applicable.tools, env.convert.tools);
      if convertedTools.Err? { return false; }
      var convertedPrompts := ConvertItems(applicable.prompts, env.convert.prompts);
      if convertedPrompts.Err? { return false; }
      var convertedResources := ConvertItems(applicable.resources, env.convert.resources);
      if convertedResources.Err? { return false; }
      var convertedTemplates := ConvertItems(applicable.templates, env.convert.templates);
      if convertedTemplates.Err? { return false; }
      var previous := enabled;
      var newTools := CommitItems(previous.tools, convertedTools.value, tools);
      var newPrompts := CommitItems(previous.prompts, convertedPrompts.value, prompts);
      var newResources := CommitItems(previous.resources, convertedResources.value, resources);
      var newTemplates := CommitItems(previous.templates, convertedTemplates.value, templates);
      configuration := cfg;
      enabled := Surface(newTools, newPrompts, newResources, newTemplates);
      ok := true;
    }

    method ReloadConfiguration(env: Env, newConfig: StaticConfig, clusters: Clusters) returns (ok: bool)
      requires Valid()
      modifies this, tools, prompts, resources, templates
      ensures Valid()
      ensures ok <==> env.validate(newConfig) && Accepts(env, old(Abs()), Some(newConfig), clusters)
      ensures Abs() == if env.validate(newConfig) then Apply(env, old(Abs()), Some(newConfig), clusters) else old(Abs())
    {
      if !env.validate(newConfig) { return false; }
      ok := ApplyToolsets(env, Some(newConfig), clusters);
    }
  }

  function Initial(config: StaticConfig): Server {
    Server(config, Surface(map[], map[], map[], map[]), Surface([], [], [], []))
  }

  // ---------------------------------------------------------------- runs of calls, one at a time

  /** One call of applyToolsets and the clusters it saw. */
  datatype Call = Call(candidate: Option<StaticConfig>, clusters: Clusters)

  function Serve(env: Env, config: StaticConfig, calls: seq<Call>): Server {
    if calls == [] then Initial(config)
    else
      var last := calls[|calls| - 1];
      Apply(env, Serve(env, config, calls[..|calls| - 1]), last.candidate, last.clusters)
  }

  predicate Succeeds(env: Env, config: StaticConfig, calls: seq<Call>, i: int)
    requires 0 <= i < |calls|
  {
    Accepts(env, Serve(env, config, calls[..i]), calls[i].candidate, calls[i].clusters)
  }

  /** The candidate of the last reload that went through, however many re-applies came after it. */
  function LatestConfig(env: Env, config: StaticConfig, calls: seq<Call>): StaticConfig {
    if calls == [] then config
    else
      var n := |calls| - 1;
      if calls[n].candidate.Some? && Succeeds(env, config, calls, n) then calls[n].candidate.value
      else LatestConfig(env, config, calls[..n])
  }

  /** The items converted by the last call that went through. */
  function LatestBatch(env: Env, config: StaticConfig, calls: seq<Call>): Surface<seq<Converted>> {
    if calls == [] then Surface([], [], [], [])
    else
      var n := |calls| - 1;
      if Succeeds(env, config, calls, n) then
        Batch(env, env.collect(ChosenConfig(Serve(env, config, calls[..n]), calls[n].candidate), calls[n].clusters))
      else LatestBatch(env, config, calls[..n])
  }

  /** Every conversion files the item under its own name. */
  ghost predicate KeepsNames(env: Env) {
    forall item: Item ::
      && (env.convert.tools(item).Ok? ==> env.convert.tools(item).value.id == item.name)
      && (env.convert.prompts(item).Ok? ==> env.convert.prompts(item).value.id == item.name)
      && (env.convert.resources(item).Ok? ==> env.convert.resources(item).value.id == item.name)
      && (env.convert.templates(item).Ok? ==> env.convert.templates(item).value.id == item.name)
  }

  /** The live configuration is that of the latest committed reload: no re-apply rolls it back. */
  lemma {:induction false} ConfigIsLatest(env: Env, config: StaticConfig, calls: seq<Call>)
    ensures Serve(env, config, calls).config == LatestConfig(env, config, calls)
  {
    if calls != [] {
      ConfigIsLatest(env, config, calls[..|calls| - 1]);
    }
  }

  lemma CommitAgain(registry: Registry, earlier: seq<Converted>, items: seq<Converted>)
    requires NamedByKey(earlier) && NamedByKey(items) && registry == LastWins(earlier)
    ensures Committed(registry, Names(earlier), items) == LastWins(items)
  {
    KeysAreNames(earlier);
    CommitExactlyWhen(registry, Names(earlier), items);
  }

  predicate BatchNamedByKey(batch: Surface<seq<Converted>>) {
    NamedByKey(batch.tools) && NamedByKey(batch.prompts) && NamedByKey(batch.resources) && NamedByKey(batch.templates)
  }

  /** The registries are the last-wins view of the latest batch, and the enabled lists are its names. */
  lemma {:induction false} SurfaceIsLatestBatch(env: Env, config: StaticConfig, calls: seq<Call>)
    requires KeepsNames(env)
    ensures var server, batch := Serve(env, config, calls), LatestBatch(env, config, calls);
            && BatchNamedByKey(batch)
            && server.registries == LastWinsSurface(batch)
            && server.enabled == NamesSurface(batch)
  {
    if calls != [] {
      var n := |calls| - 1;
      SurfaceIsLatestBatch(env, config, calls[..n]);
      if Succeeds(env, config, calls, n) {
        var before, batch := LatestBatch(env, config, calls[..n]), LatestBatch(env, config, calls);
        assert BatchNamedByKey(batch);
        var server := Serve(env, config, calls[..n]);
        CommitAgain(server.registries.tools, before.tools, batch.tools);
        CommitAgain(server.registries.prompts, before.prompts, batch.prompts);
        CommitAgain(server.registries.resources, before.resources, batch.resources);
        CommitAgain(server.registries.templates, before.templates, batch.templates);
      }
    }
  }
}
