/** Moving an application between deployment strategies (pkg/apps/application/processor_deploy_strategy.go): the calls
    on the store, proved to write what StrategySpec says whenever the snapshot's keys are unique. */
module Strategies {
  import opened Wrappers
  import opened ManifestStore
  import opened Routes
  import opened Workloads
  import opened StrategySpec

  type Store = FsStore<Object>

  /** Two calls in a row do what their combined effect says. */
  lemma Sequenced(first: Effect<Object>, second: Effect<Object>, error: Option<Error>, before: Snapshot, mid: Snapshot,
                  after: Snapshot)
    requires Realized(first, None, before, mid) && Realized(second, error, mid, after)
    ensures Realized(Then(first, second), error, before, after)
  {
    PerformAppend(before, first.writes, second.writes);
  }

  lemma NothingDone(files: Snapshot)
    ensures Realized(Done(), None, files, files)
  {
  }

  // ---- Loops that compute values ----

  method DefaultAnalysisArgs(a: Option<Analysis>, defaultService: string) returns (r: Option<Analysis>)
    ensures r == DefaultAnalysis(a, defaultService)
  {
    if a.None? {
      return None;
    }
    var args := a.value.args;
    for i := 0 to |args|
      invariant |args| == |a.value.args|
      invariant forall j :: 0 <= j < |args| ==>
                  args[j] == if j < i then DefaultArg(a.value.args[j], defaultService) else a.value.args[j]
    {
      var arg := args[i];
      if arg.name == ANALYSIS_ARG_SERVICE_NAME && IsBlank(arg.value) {
        args := args[i := arg.(value := defaultService)];
      } else if arg.name == ANALYSIS_ARG_NAMESPACE && IsBlank(arg.value) {
        args := args[i := arg.(value := "", fieldPath := Some(NAMESPACE_PATH))];
      }
    }
    assert args == DefaultArgs(a.value.args, defaultService);
    r := Some(a.value.(args := args));
  }

  method FilterLabels(labels: StringMap) returns (filtered: StringMap)
    ensures filtered == SelectorLabels(labels)
  {
    filtered := map[];
    var rest := labels.Keys;
    while rest != {}
      invariant rest <= labels.Keys
      invariant filtered == map k | k in labels && k !in rest && k != ISTIO_VERSION :: labels[k]
    {
      var k :| k in rest;
      rest := rest - {k};
      if k == ISTIO_VERSION {
        continue;
      }
      filtered := filtered[k := labels[k]];
    }
  }

  method CollectPorts(containers: seq<Container>) returns (ports: seq<ServicePort>)
    ensures ports == AllPorts(containers)
  {
    ports := [];
    for i := 0 to |containers|
      invariant ports == AllPorts(containers[..i])
    {
      var declared := containers[i].ports;
      ghost var before := ports;
      for j := 0 to |declared|
        invariant ports == before + PortsOf(declared)[..j]
      {
        var p := declared[j];
        ports := ports + [ServicePort(p.name, p.protocol, p.port, p.port)];
        assert PortsOf(declared)[..j + 1] == PortsOf(declared)[..j] + [PortsOf(declared)[j]];
      }
      assert PortsOf(declared)[..|declared|] == PortsOf(declared);
      assert containers[..i + 1][..i] == containers[..i];
    }
    assert containers[..|containers|] == containers;
  }

  /** completeCanarySteps. */
  method CompleteCanarySteps(steps: seq<CanaryStep>) returns (completed: seq<CanaryStep>)
    ensures completed == CompleteSteps(steps)
    ensures steps <= completed && |completed| >= 2
  {
    completed := steps;
    if |completed| == 0 {
      completed := completed + [SetWeight(DEFAULT_STEP_INIT_WEIGHT)];
    }
    if |completed| == 1 {
      completed := completed + [Pause(None)];
    }
  }

  // ---- The calls on the store ----

  /** `found` is what an existing resource was decoded to. */
  method CreateIfNotExist(store: Store, o: Object) returns (error: Option<Error>, found: Option<Object>)
    requires store.codec == OBJECTS
    modifies store`files
    ensures Realized(CreateIfAbsent(store.resources, o), error, old(store.files), store.files)
    ensures store.Unique() ==> found == Read(OBJECTS, store.resources, o.Key())
  {
    found := store.Get(o.Key());
    if found.None? {
      error := store.Create(o);
    } else {
      error := None;
      NothingDone(store.files);
    }
  }

  method CopyServices(store: Store, stable: Object, names: seq<string>) returns (error: Option<Error>)
    requires store.codec == OBJECTS && stable.body.ServiceBody?
    modifies store`files
    ensures store.Unique() ==>
              Realized(CopiesEffect(store.resources, stable, names), error, old(store.files), store.files)
  {
    error := None;
    var shared := stable;
    NothingDone(store.files);
    for i := 0 to |names|
      invariant error.None? && shared.body == stable.body && shared.meta.name == stable.meta.name
      invariant store.Unique() ==> shared == Mingled(store.resources, stable, names[..i])
      invariant store.Unique() ==>
                  Realized(CopiesEffect(store.resources, stable, names[..i]), None, old(store.files), store.files)
    {
      assert names[..i + 1][..i] == names[..i];
      ghost var done, mid := CopiesEffect(store.resources, stable, names[..i]), store.files;
      ghost var next := if names[i] == stable.meta.name then Done()
                        else CreateIfAbsent(store.resources, CopyService(shared, names[i]));
      if names[i] == stable.meta.name {
        NothingDone(store.files);
        if store.Unique() {
          Sequenced(done, next, None, old(store.files), mid, store.files);
        }
        continue;
      }
      var found: Option<Object>;
      error, found := CreateIfNotExist(store, CopyService(shared, names[i]));
      if store.Unique() {
        Sequenced(done, next, error, old(store.files), mid, store.files);
      }
      if error.Some? {
        if store.Unique() {
          CopiesStop(store.resources, stable, names, i + 1);
        }
        return;
      }
      shared := Mingle(shared, found);
    }
    assert names[..|names|] == names;
  }

  /** Once a copy fails, the copies after it are not tried. */
  lemma {:induction false} CopiesStop(snap: Snapshot, stable: Object, names: seq<string>, n: nat)
    requires stable.body.ServiceBody? && n <= |names| && CopiesEffect(snap, stable, names[..n]).error.Some?
    ensures CopiesEffect(snap, stable, names) == CopiesEffect(snap, stable, names[..n])
  {
    if n == |names| {
      assert names[..n] == names;
    } else {
      var less := names[..|names| - 1];
      assert less[..n] == names[..n];
      CopiesStop(snap, stable, less, n);
    }
  }

  method EnsureDeploymentServices(store: Store, dep: Object, names: seq<string>) returns (error: Option<Error>)
    requires store.codec == OBJECTS && dep.body.DeploymentBody?
    modifies store`files
    ensures store.Unique() ==>
              Realized(ServicesEffect(store.resources, dep, names), error, old(store.files), store.files)
  {
    var found := store.Get(ServiceKey(dep.meta.name));
    var stable: Object;
    if found.Some? {
      stable := found.value;
      NothingDone(store.files);
    } else {
      var selector := FilterLabels(dep.body.deployment.template.labels);
      var ports := CollectPorts(dep.body.deployment.template.containers);
      stable := Object(Meta(dep.meta.name, dep.meta.namespace, map[], MARK, []),
                       ServiceBody(ServiceSpec(ports, selector, "", "", "", "")), None);
      if |ports| == 0 {
        return Some(NoPorts);
      }
      var existing: Option<Object>;
      error, existing := CreateIfNotExist(store, stable);
      if error.Some? {
        return;
      }
    }
    ghost var mid := store.files;
    error := CopyServices(store, stable, names);
    if store.Unique() {
      Sequenced(CreateIfAbsent(store.resources, stable), CopiesEffect(store.resources, stable, names), error,
                old(store.files), mid, store.files);
    }
  }

  /** prepareCanaryIstioRollout. */
  method PrepareCanaryIstioRollout(store: Store, dep: Object, stable: string, next: string, vs: ExtendedVirtualService)
    returns (error: Option<Error>)
    requires store.codec == OBJECTS && vs.routes != []
    modifies store`files
    ensures store.Unique() ==>
              Realized(IstioEffect(store.resources, dep, stable, next, vs), error, old(store.files), store.files)
  {
    var target := NewVirtualService(dep, stable, next, vs);
    var exist := store.Get(target.Key());
    if exist.None? {
      error := store.Create(target);
      return;
    }
    var http, updated := PlaceRoute(exist.value.body.virtualService.http, target.body.virtualService.http[0]);
    if updated {
      error := store.Update(WithRoutes(exist.value, http));
    } else {
      error := None;
      NothingDone(store.files);
    }
  }

  /** The defaults prepareCanaryRollout and prepareCanaryIstioRollout write into the requested strategy. */
  method FillInCanary(dep: Object, canary: ExtendedCanaryStrategy) returns (completed: ExtendedCanaryStrategy)
    ensures completed == CompleteCanary(dep, canary)
  {
    completed := canary;
    if completed.canaryService == "" {
      completed := completed.(canaryService := dep.meta.name + CANARY_SUFFIX);
    }
    if completed.stableService == "" {
      completed := completed.(stableService := dep.meta.name);
    }
    var steps := CompleteCanarySteps(canary.steps);
    var analysis := DefaultAnalysisArgs(canary.analysis, completed.canaryService);
    completed := completed.(steps := steps, analysis := analysis);
    var tr := canary.trafficRouting;
    if tr.Some? && tr.value.istio.Some? {
      var vs := tr.value.istio.value;
      if vs.name == "" {
        vs := vs.(name := completed.stableService);
      }
      if |vs.routes| == 0 {
        vs := vs.(routes := ["canary"]);
      }
      completed := completed.(trafficRouting := Some(tr.value.(istio := Some(vs))));
    }
  }

  method PrepareCanaryRollout(store: Store, dep: Object, canary: ExtendedCanaryStrategy)
    returns (error: Option<Error>, completed: ExtendedCanaryStrategy)
    requires store.codec == OBJECTS && dep.body.DeploymentBody?
    modifies store`files
    ensures store.Unique() ==>
              Realized(CanaryEffect(store.resources, dep, canary), error, old(store.files), store.files)
    ensures completed == CompleteCanary(dep, canary)
  {
    completed := FillInCanary(dep, canary);
    var stable, next, tr := completed.stableService, completed.canaryService, completed.trafficRouting;
    ghost var services := ServicesEffect(store.resources, dep, [stable, next]);
    error := EnsureDeploymentServices(store, dep, [stable, next]);
    if error.Some? {
      return;
    }
    ghost var mid := store.files;
    ghost var routing: Effect<Object> := Done();
    if tr.Some? && tr.value.istio.Some? {
      routing := IstioEffect(store.resources, dep, stable, next, tr.value.istio.value);
      error := PrepareCanaryIstioRollout(store, dep, stable, next, tr.value.istio.value);
    } else {
      NothingDone(store.files);
    }
    if store.Unique() {
      Sequenced(services, routing, error, old(store.files), mid, store.files);
    }
  }

  method PrepareBlueGreenRollout(store: Store, dep: Object, blueGreen: BlueGreenStrategy)
    returns (error: Option<Error>, completed: BlueGreenStrategy)
    requires store.codec == OBJECTS && dep.body.DeploymentBody?
    modifies store`files
    ensures store.Unique() ==>
              Realized(BlueGreenEffect(store.resources, dep, blueGreen), error, old(store.files), store.files)
    ensures error.None? ==> completed == CompleteBlueGreen(dep, blueGreen)
  {
    completed := blueGreen;
    if completed.activeService == "" {
      completed := completed.(activeService := dep.meta.name + CANARY_SUFFIX);
    }
    if completed.previewService == "" {
      completed := completed.(previewService := dep.meta.name);
    }
    error := EnsureDeploymentServices(store, dep, [completed.activeService, completed.previewService]);
    if error.Some? {
      return;
    }
    var analysis := DefaultAnalysisArgs(blueGreen.prePromotionAnalysis, completed.previewService);
    completed := completed.(prePromotionAnalysis := analysis);
  }

  method EnsureRollout(store: Store, dep: Object, strategy: RolloutStrategy) returns (error: Option<Error>)
    requires store.codec == OBJECTS && dep.body.DeploymentBody?
    modifies store`files
    ensures store.Unique() ==>
              Realized(EnsureRolloutEffect(store.resources, dep, strategy), error, old(store.files), store.files)
  {
    var found := store.Get(Key(Deployment, dep.meta.name));
    var rollout := NewRollout(dep, strategy, if found.Some? then found.value.body.deployment.replicas else None);
    var exist := store.Get(RolloutKey(dep));
    if exist.None? {
      error := store.Create(rollout);
    } else {
      error := store.Update(WithRollout(exist.value, rollout));
    }
  }

  lemma {:induction false} RemovalsPerform(files: Snapshot, snap: Snapshot, names: seq<string>)
    requires forall f :: f in names ==> f in snap && snap[f].Resource?
    ensures Perform(files, Removals(names, snap)) == files - set f | f in names
  {
    if names != [] {
      var less := names[..|names| - 1];
      RemovalsPerform(files, snap, less);
      assert Removals(names, snap)[..|names| - 1] == Removals(less, snap);
      assert names == less + [names[|names| - 1]];
      assert (set f | f in names) == (set f | f in less) + {names[|names| - 1]};
    }
  }

  method DeleteItem(store: Store, item: Object, ghost f: string) returns (error: Option<Error>)
    requires store.codec == OBJECTS && Holds(OBJECTS, store.resources, f, item.Key())
    modifies store`files
    ensures store.Unique() ==> error.None? && store.files == old(store.files) - {f}
  {
    ghost var before := store.files;
    error := store.Delete(item.Key());
    if store.Unique() {
      assert Where(OBJECTS, store.resources, item.Key()) == Some(f);
      PerformSingle(before, Remove(f, item.Key()));
    }
  }

  /** The files removed so far are generated, and all of those holding one of these items are among them. */
  ghost predicate Swept(snap: Snapshot, items: seq<Object>, removed: set<string>) {
    && removed <= GeneratedFiles(snap)
    && forall f :: f in GeneratedFiles(snap) && snap[f].doc in items ==> f in removed
  }

  lemma SweptStep(snap: Snapshot, items: seq<Object>, removed: set<string>, item: Object, f: string)
    requires UniqueKeys(OBJECTS, snap) && Swept(snap, items, removed)
    requires f in snap && IsYaml(f) && snap[f] == Resource(item)
    ensures Swept(snap, items + [item], if Generated(item) then removed + {f} else removed)
  {
    ItemFile(snap, f, item);
  }

  lemma SweptAll(snap: Snapshot, items: seq<Object>, removed: set<string>, before: Snapshot, after: Snapshot)
    requires Swept(snap, items, removed) && after == before - removed
    requires forall f :: f in GeneratedFiles(snap) ==> snap[f].doc in items
    ensures Realized(CleanEffect(snap), None, before, after)
  {
    var names := Listing(GeneratedFiles(snap));
    RemovalsPerform(before, snap, names);
    assert (set f | f in names) == GeneratedFiles(snap) == removed;
  }

  /** Deletes exactly the resources generated for a rollout. */
  method CleanRollout(store: Store) returns (error: Option<Error>)
    requires store.codec == OBJECTS && store.Valid()
    modifies store`files
    ensures store.Unique() ==> Realized(CleanEffect(store.resources), error, old(store.files), store.files)
  {
    var items := store.ListAll();
    error := None;
    ghost var removed: set<string> := {};
    for i := 0 to |items|
      invariant store.Unique() ==> error.None? && store.files == old(store.files) - removed
      invariant store.Unique() ==> Swept(store.resources, items[..i], removed)
    {
      var item := items[i];
      assert item in items && items[..i + 1] == items[..i] + [item];
      ghost var f :| f in store.resources && store.resources[f] == Resource(item);
      if store.Unique() {
        SweptStep(store.resources, items[..i], removed, item, f);
      }
      if Generated(item) {
        error := DeleteItem(store, item, f);
        if error.Some? {
          return;
        }
        removed := removed + {f};
      }
    }
    assert items[..|items|] == items;
    if store.Unique() {
      SweptAll(store.resources, items, removed, old(store.files), store.files);
    }
  }

  lemma ItemFile(snap: Snapshot, f: string, item: Object)
    requires UniqueKeys(OBJECTS, snap) && f in snap && IsYaml(f) && snap[f] == Resource(item)
    ensures forall g :: g in snap && IsYaml(g) && snap[g].Resource? && snap[g].doc == item ==> g == f
  {
    assert Holds(OBJECTS, snap, f, item.Key());
    forall g | g in snap && IsYaml(g) && snap[g].Resource? && snap[g].doc == item
      ensures g == f
    {
      assert Holds(OBJECTS, snap, g, item.Key());
    }
  }

  /** configForArgoRollout. */
  method ConfigForArgoRollout(store: Store, dep: Object, s: Strategy) returns (error: Option<Error>)
    requires store.codec == OBJECTS && store.Valid() && dep.body.DeploymentBody?
    modifies store`files
    ensures store.Unique() ==>
              Realized(RolloutEffect(store.resources, dep, s), error, old(store.files), store.files)
  {
    var rolloutStrategy: RolloutStrategy;
    ghost var prepared: Effect<Object>;
    match s.stype {
      case Canary =>
        var canary := if s.canary.Some? then s.canary.value else EMPTY_CANARY;
        var completed: ExtendedCanaryStrategy;
        error, completed := PrepareCanaryRollout(store, dep, canary);
        prepared := CanaryEffect(store.resources, dep, canary);
        rolloutStrategy := RolloutStrategy(Some(completed.ToCanaryStrategy()), None);
      case BlueGreen =>
        var blueGreen := if s.blueGreen.Some? then s.blueGreen.value else EMPTY_BLUE_GREEN;
        var completed: BlueGreenStrategy;
        error, completed := PrepareBlueGreenRollout(store, dep, blueGreen);
        prepared := BlueGreenEffect(store.resources, dep, blueGreen);
        rolloutStrategy := RolloutStrategy(None, Some(completed));
      case _ =>
        error := CleanRollout(store);
        return;
    }
    if error.Some? {
      return;
    }
    ghost var mid := store.files;
    error := EnsureRollout(store, dep, rolloutStrategy);
    if store.Unique() {
      Sequenced(prepared, EnsureRolloutEffect(store.resources, dep, rolloutStrategy), error,
                old(store.files), mid, store.files);
    }
  }

  /** configForDeployment. */
  method ConfigForDeployment(store: Store, dep: Object, s: Strategy) returns (error: Option<Error>, updated: Object)
    requires store.codec == OBJECTS && dep.body.DeploymentBody?
    modifies store`files
    ensures SameButStrategy(dep, updated) && updated.status == dep.status
    ensures var was, now := dep.body.deployment.strategy, updated.body.deployment.strategy;
            if s.stype.RollingUpdate? && !was.stype.RollingUpdate? then now == UpdateStrategy(RollingUpdate, s.rolling)
            else if s.stype.Recreate? && !was.stype.Recreate? then now == UpdateStrategy(Recreate, None)
            else now == was
    ensures s.stype.Canary? || s.stype.BlueGreen? ==> updated == dep
    ensures store.Unique() ==>
              Realized(DeploymentEffect(store.resources, dep, s), error, old(store.files), store.files)
  {
    updated := dep;
    error := None;
    if (s.stype.RollingUpdate? || s.stype.Recreate?) && dep.body.deployment.strategy.stype != s.stype {
      updated := WithStrategy(dep, s);
      error := store.Update(updated);
    } else {
      NothingDone(store.files);
    }
  }

  method ParseMainDeployment(store: Store) returns (dep: Option<Object>)
    requires store.codec == OBJECTS && store.Valid()
    ensures dep == MainDeployment(store.resources)
  {
    var items := store.List(Deployment);
    ghost var held := OfKind(OBJECTS, store.resources, Deployment);
    assert forall f :: HoldsDeployment(store.resources, f) <==> f in held;
    if |items| != 1 {
      NoneOrSeveral(store.resources, held);
      return None;
    }
    assert items[0] in items;
    ghost var f :| f in held && store.resources[f] == Resource(items[0]);
    OnlyOne(store.resources, held, f);
    dep := Some(items[0]);
  }

  lemma OnlyOne(snap: Snapshot, held: set<string>, f: string)
    requires (forall g :: HoldsDeployment(snap, g) <==> g in held) && |held| == 1 && HoldsDeployment(snap, f)
    ensures MainDeployment(snap) == Some(snap[f].doc)
  {
    assert |held - {f}| == 0;
    forall g | HoldsDeployment(snap, g)
      ensures g == f
    {
      assert g !in held - {f};
    }
  }

  lemma NoneOrSeveral(snap: Snapshot, held: set<string>)
    requires (forall g :: HoldsDeployment(snap, g) <==> g in held) && |held| != 1
    ensures MainDeployment(snap) == None
  {
    forall f | HoldsDeployment(snap, f)
      ensures exists g :: HoldsDeployment(snap, g) && g != f
    {
      assert |held - {f}| > 0;
      var g :| g in held - {f};
      assert HoldsDeployment(snap, g);
    }
  }

  /** PrepareDeploymentStrategy, within its transaction. */
  method PrepareDeploymentStrategy(store: Store, s: Strategy) returns (error: Option<Error>)
    requires store.codec == OBJECTS && store.Valid()
    modifies store`files
    ensures store.Unique() ==> Realized(StrategyEffect(store.resources, s), error, old(store.files), store.files)
  {
    var main := ParseMainDeployment(store);
    if main.None? {
      NothingDone(store.files);
      return Some(NoMainDeployment);
    }
    var dep := main.value;
    var updated: Object;
    error, updated := ConfigForDeployment(store, dep, s);
    if error.Some? {
      return;
    }
    ghost var mid := store.files;
    error := ConfigForArgoRollout(store, updated, s);
    if store.Unique() {
      Sequenced(DeploymentEffect(store.resources, dep, s), RolloutEffect(store.resources, dep, s), error,
                old(store.files), mid, store.files);
    }
  }

  /** ParseUpdateStrategyAndDeployment. */
  method ParseUpdateStrategy(store: Store) returns (s: Option<Strategy>)
    requires store.codec == OBJECTS && store.Valid()
    ensures store.Unique() ==> s == ParseStrategy(store.resources)
  {
    var main := ParseMainDeployment(store);
    if main.None? {
      return None;
    }
    var dep := main.value;
    var rollout := store.Get(RolloutKey(dep));
    if rollout.None? {
      return Some(Strategy(dep.body.deployment.strategy.stype, None, None, dep.body.deployment.strategy.rolling));
    }
    var rs := rollout.value.body.rollout.strategy;
    if rs.canary.Some? {
      s := Some(Strategy(Canary, Some(ExtendCanaryStrategy(rs.canary.value)), None, None));
    } else if rs.blueGreen.Some? {
      s := Some(Strategy(BlueGreen, None, rs.blueGreen, None));
    } else {
      s := Some(Strategy(Unset, None, None, None));
    }
  }
}
