/** Setting a strategy again: when it changes nothing more. */
module StrategyAgain {
  import opened Wrappers
  import opened ManifestStore
  import opened Routes
  import opened Workloads
  import opened StrategySpec
  import opened StrategyWrites
  import opened StoreRefinement
  import opened Pipeline
  import opened StrategyProofs
  import opened StrategyRoundTrip
  import opened StrategyResults

  lemma {:induction false} CopiesDone(snap: Snapshot, stable: Object, names: seq<string>)
    requires stable.body.ServiceBody? && forall n :: n in names ==> Present(OBJECTS, snap, ServiceKey(n))
    ensures CopiesEffect(snap, stable, names) == Done()
  {
    if names != [] {
      var less, last := names[..|names| - 1], names[|names| - 1];
      assert last in names;
      CopiesDone(snap, stable, less);
      assert CopyService(Mingled(snap, stable, less), last).Key() == ServiceKey(last);
    }
  }

  /** The routes, if the setting routes, are as it wants them. */
  ghost predicate RouteSettled(dir: Dir, dep: Object, s: Strategy) {
    IstioRouted(dep, s) ==>
      var http := RoutesOf(dir, RouteKey(dep, s).value);
      http.Some? && !Placed(http.value, WantedRoute(dep, s)).1
  }

  lemma NothingToRoute(dir: Dir, dep: Object, s: Strategy)
    requires UniqueKeys(OBJECTS, dir) && RouteSettled(dir, dep, s)
    ensures Routing(Yamls(dir), dep, s) == Done()
  {
    if IstioRouted(dep, s) {
      SnapshotWhere(OBJECTS, dir, RouteKey(dep, s).value);
    }
  }

  lemma ServicesDone(dir: Dir, dep: Object, s: Strategy)
    requires UniqueKeys(OBJECTS, dir) && dep.body.DeploymentBody? && ServicesThere(dir, dep, s)
    ensures ServicesEffect(Yamls(dir), dep, ServiceNames(dep, s)) == Done()
  {
    var snap, names := Yamls(dir), ServiceNames(dep, s);
    forall n | n in names || n == dep.meta.name
      ensures Present(OBJECTS, snap, ServiceKey(n))
    {
      SnapshotWhere(OBJECTS, dir, ServiceKey(n));
    }
    CopiesDone(snap, StableService(snap, dep), names);
  }

  /** In a directory that has the services, the routes and a steady rollout, the setting writes everything as it is. */
  lemma SteadySetting(dir: Dir, dep: Object, s: Strategy, r: Object)
    requires UniqueKeys(OBJECTS, dir) && MainDeployment(Yamls(dir)) == Some(dep) && !Removes(s)
    requires ServicesThere(dir, dep, s) && RouteSettled(dir, dep, s)
    requires Read(OBJECTS, dir, RolloutKey(dep)) == Some(r) && Steady(dep, Wanted(dep, s), r)
    ensures After(dir, s) == dir && ErrorOf(dir, s).None?
  {
    var snap := Yamls(dir);
    ServicesDone(dir, dep, s);
    NothingToRoute(dir, dep, s);
    PreparationParts(snap, dep, s);
    SteadyRollout(dir, dep, Wanted(dep, s), r);
    TemporaryEffect(snap, dep, s);
    var e := EnsureRolloutEffect(snap, dep, Wanted(dep, s));
    assert [] + e.writes == e.writes;
  }

  lemma SteadyRollout(dir: Dir, dep: Object, rs: RolloutStrategy, r: Object)
    requires UniqueKeys(OBJECTS, dir) && dep.body.DeploymentBody?
    requires Read(OBJECTS, dir, RolloutKey(dep)) == Some(r) && Steady(dep, rs, r)
    ensures var e := EnsureRolloutEffect(Yamls(dir), dep, rs);
            e.error.None? && Perform(dir, e.writes) == dir
  {
    var f := Where(OBJECTS, dir, RolloutKey(dep)).value;
    SnapshotWhere(OBJECTS, dir, RolloutKey(dep));
    PerformSingle(dir, Put(f, r));
    assert dir[f := Resource(r)] == dir;
  }

  /** A directory in which the setting has nothing left to do. */
  ghost predicate Complete(dir: Dir, keys: set<Key>, dep: Object, s: Strategy) {
    && Tidy(dir, keys)
    && (KUSTOMIZATION_FILE in dir ==> !dir[KUSTOMIZATION_FILE].Resource?)
    && MainDeployment(Yamls(dir)) == Some(dep)
    && ServicesThere(dir, dep, s)
    && Read(OBJECTS, dir, RolloutKey(dep)).Some?
    && dep.body.DeploymentBody?
    && Steady(dep, Wanted(dep, s), Read(OBJECTS, dir, RolloutKey(dep)).value)
  }

  lemma CompleteAfter(dir: Dir, keys: set<Key>, dep: Object, s: Strategy)
    requires Ready(dir, keys) && Covers(keys, dep, s)
    requires MainDeployment(Yamls(dir)) == Some(dep) && !Removes(s) && ErrorOf(dir, s).None?
    ensures Complete(After(dir, s), keys, dep, s)
  {
    TidyKept(dir, keys, s);
    FreshIsFree(dir, keys, dep, s);
    MainKept(dir, dep, s, After(dir, s));
    IndexStays(dir, keys, dep, s, After(dir, s));
    ServicesAfter(dir, dep, s);
    var r := RolloutRead(dir, dep, s);
  }

  lemma CompleteIndexed(l: ReadDir, dir: Dir, keys: set<Key>, dep: Object, s: Strategy)
    requires Complete(dir, keys, dep, s)
    ensures Complete(Kustomized(l, dir), keys, dep, s)
  {
    KustomizeTransparent(l, dir, keys);
    var after := Kustomized(l, dir);
    forall k
      ensures Present(OBJECTS, dir, k) ==> Present(OBJECTS, after, k)
    {
      assert Read(OBJECTS, after, k) == Read(OBJECTS, dir, k);
    }
  }

  lemma CompleteFixed(dir: Dir, keys: set<Key>, dep: Object, s: Strategy)
    requires Complete(dir, keys, dep, s) && !Removes(s) && RouteSettled(dir, dep, s)
    ensures After(dir, s) == dir && ErrorOf(dir, s).None?
  {
    SteadySetting(dir, dep, s, Read(OBJECTS, dir, RolloutKey(dep)).value);
  }

  /** A setting that changes no file is not undone by bringing the index up to date. */
  lemma IndexedFixed(l: ReadDir, once: Dir, s: Strategy)
    requires Lists(l)
    requires var two := Kustomized(l, once); After(two, s) == two && ErrorOf(two, s).None?
    ensures Set(l, Kustomized(l, once), s) == Kustomized(l, once)
  {
    KustomizeAgrees(l, once);
    KustomizedFixed(l, Kustomized(l, once));
  }

  /** Without Istio routing, setting the same strategy twice equals setting it once, file by file. */
  lemma TemporaryTwice(l: ReadDir, dir: Dir, keys: set<Key>, s: Strategy)
    requires Lists(l) && Ready(dir, keys) && CoversAt(keys, dir, s) && !Removes(s) && ErrorOf(dir, s).None?
    requires !IstioRouted(MainDeployment(Yamls(dir)).value, s)
    ensures Set(l, Set(l, dir, s), s) == Set(l, dir, s)
  {
    var dep, once := MainDeployment(Yamls(dir)).value, After(dir, s);
    CompleteAfter(dir, keys, dep, s);
    CompleteIndexed(l, once, keys, dep, s);
    CompleteFixed(Kustomized(l, once), keys, dep, s);
    IndexedFixed(l, once, s);
  }

  // ---- With Istio routing ----

  /** The wanted route has a name, which at most one existing route bears. */
  ghost predicate Routable(before: Option<seq<HttpRoute>>, target: HttpRoute) {
    target.name != "" && (before.Some? ==> AtMostOne(before.value, target.name))
  }

  /** Routing twice settles the routes, with the wanted one in front. */
  lemma ReroutedTwice(before: Option<seq<HttpRoute>>, dep: Object, s: Strategy)
    requires IstioRouted(dep, s) && Routable(before, WantedRoute(dep, s))
    ensures var twice := Rerouted(Some(Rerouted(before, dep, s)), dep, s);
            twice != [] && twice[0] == WantedRoute(dep, s) && !Placed(twice, WantedRoute(dep, s)).1
  {
    match before
    case None =>
      var once := Rerouted(None, dep, s);
      assert forall i :: Named(once, i, WantedRoute(dep, s).name) ==> i == 0;
      NothingWritten(once, WantedRoute(dep, s));
      UnwrittenIsSame(once, WantedRoute(dep, s));
    case Some(http) => TwoCallsPlace(http, WantedRoute(dep, s));
  }

  lemma RoutingSucceeds(dir: Dir, dep: Object, s: Strategy, k: Key)
    requires UniqueKeys(OBJECTS, dir) && RouteKey(dep, s) == Some(k) && RoutesOf(dir, k).Some?
    ensures Routing(Yamls(dir), dep, s).error.None?
  {
    SnapshotWhere(OBJECTS, dir, k);
  }

  /** Where the services, the rollout and the VirtualService are, the setting succeeds. */
  lemma CompleteSucceeds(dir: Dir, keys: set<Key>, dep: Object, s: Strategy, k: Key)
    requires Complete(dir, keys, dep, s) && RouteKey(dep, s) == Some(k) && RoutesOf(dir, k).Some?
    ensures ErrorOf(dir, s).None?
  {
    ServicesDone(dir, dep, s);
    RoutingSucceeds(dir, dep, s, k);
    PreparationParts(Yamls(dir), dep, s);
    SteadyRollout(dir, dep, Wanted(dep, s), Read(OBJECTS, dir, RolloutKey(dep)).value);
    TemporaryEffect(Yamls(dir), dep, s);
  }

  /** What one setting through the pipeline leaves. */
  lemma RoutedOnce(l: ReadDir, dir: Dir, keys: set<Key>, dep: Object, s: Strategy, k: Key)
    requires Ready(dir, keys) && MainDeployment(Yamls(dir)) == Some(dep) && Covers(keys, dep, s)
    requires RouteKey(dep, s) == Some(k) && ErrorOf(dir, s).None?
    ensures Ready(Set(l, dir, s), keys) && Complete(Set(l, dir, s), keys, dep, s)
    ensures RoutesOf(Set(l, dir, s), k) == Some(Rerouted(RoutesOf(dir, k), dep, s))
  {
    var once := After(dir, s);
    CompleteAfter(dir, keys, dep, s);
    CompleteIndexed(l, once, keys, dep, s);
    FreshIsFree(dir, keys, dep, s);
    RouteAfter(dir, dep, s, k);
    KustomizeTransparent(l, once, keys);
    SetReadsBack(l, dir, keys, s);
  }

  /** With Istio routing, setting the same strategy three times equals setting it twice, file by file, and after the
      second time the wanted route comes first. */
  lemma RoutedThrice(l: ReadDir, dir: Dir, keys: set<Key>, dep: Object, s: Strategy, k: Key)
    requires Lists(l) && Ready(dir, keys) && MainDeployment(Yamls(dir)) == Some(dep) && Covers(keys, dep, s)
    requires RouteKey(dep, s) == Some(k) && ErrorOf(dir, s).None?
    requires Routable(RoutesOf(dir, k), WantedRoute(dep, s))
    ensures var once := Set(l, dir, s);
            var twice := Set(l, once, s);
            && ErrorOf(once, s).None? && ErrorOf(twice, s).None?
            && Set(l, twice, s) == twice
            && var http := RoutesOf(twice, k); http.Some? && http.value != [] && http.value[0] == WantedRoute(dep, s)
  {
    var once := Set(l, dir, s);
    RoutedOnce(l, dir, keys, dep, s, k);
    CompleteSucceeds(once, keys, dep, s, k);
    RoutedOnce(l, once, keys, dep, s, k);
    ReroutedTwice(RoutesOf(dir, k), dep, s);
    CompleteFixed(Set(l, once, s), keys, dep, s);
    IndexedFixed(l, After(once, s), s);
  }

  // ---- Settings that remove ----

  lemma CleanLeavesNone(dir: Dir, keys: set<Key>, s: Strategy)
    requires Ready(dir, keys) && Removes(s)
    ensures var dep, once := MainDeployment(Yamls(dir)).value, After(dir, s);
            && ErrorOf(dir, s).None? && GeneratedFiles(once) == {}
            && MainDeployment(Yamls(once)).Some?
            && (s.stype.RollingUpdate? || s.stype.Recreate? ==>
                  MainDeployment(Yamls(once)).value.body.deployment.strategy.stype == s.stype)
  {
    var dep := MainDeployment(Yamls(dir)).value;
    var f := MainFile(dir, dep);
    CleanAfter(dir, dep, s, f);
    MainAfterClean(dir, dep, s, f);
  }

  /** With nothing generated and the type as wanted, a removing setting changes nothing. */
  lemma CleanFixed(dir: Dir, dep: Object, s: Strategy)
    requires UniqueKeys(OBJECTS, dir) && Removes(s)
    requires MainDeployment(Yamls(dir)) == Some(dep) && GeneratedFiles(dir) == {}
    requires s.stype.RollingUpdate? || s.stype.Recreate? ==> dep.body.deployment.strategy.stype == s.stype
    ensures After(dir, s) == dir && ErrorOf(dir, s).None?
  {
  }

  lemma NoneGeneratedIndexed(l: ReadDir, dir: Dir)
    requires GeneratedFiles(dir) == {}
    ensures GeneratedFiles(Kustomized(l, dir)) == {}
  {
  }

  /** The same for a setting that removes. */
  lemma RemovedTwice(l: ReadDir, dir: Dir, keys: set<Key>, s: Strategy)
    requires Lists(l) && Ready(dir, keys) && Removes(s)
    ensures ErrorOf(dir, s).None? && Set(l, Set(l, dir, s), s) == Set(l, dir, s)
  {
    var once := After(dir, s);
    CleanLeavesNone(dir, keys, s);
    ReadyKept(dir, keys, s);
    KustomizeTransparent(l, once, keys);
    NoneGeneratedIndexed(l, once);
    CleanFixed(Kustomized(l, once), MainDeployment(Yamls(once)).value, s);
    IndexedFixed(l, once, s);
  }
}
