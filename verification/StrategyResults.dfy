/** What a canary or blue-green setting leaves: every resource it depends on, as it should be, and no other file
    touched; exactly when the files it creates are free. */
module StrategyResults {
  import opened Wrappers
  import opened ManifestStore
  import opened Routes
  import opened Workloads
  import opened StrategySpec
  import opened StrategyWrites
  import opened StoreRefinement
  import opened StrategyProofs
  import opened StrategyRoundTrip

  lemma {:induction false} FinalPresent(ws: seq<Write<Object>>, k: Key, before: Option<Object>)
    requires forall i :: 0 <= i < |ws| ==> ws[i].Put?
    requires before.Some? || exists i :: 0 <= i < |ws| && WriteKey(ws[i]) == k
    ensures Final(ws, k, before).Some?
    decreases |ws|
  {
    if ws != [] && WriteKey(ws[|ws| - 1]) != k {
      FinalPresent(ws[..|ws| - 1], k, before);
    }
  }

  ghost predicate Wrote(e: Effect<Object>, k: Key) {
    exists i :: 0 <= i < |e.writes| && WriteKey(e.writes[i]) == k
  }

  lemma ThenWrote(a: Effect<Object>, b: Effect<Object>, k: Key)
    requires a.error.None? && (Wrote(a, k) || Wrote(b, k))
    ensures Wrote(Then(a, b), k)
  {
    if i :| 0 <= i < |a.writes| && WriteKey(a.writes[i]) == k {
      assert Then(a, b).writes[i] == a.writes[i];
    } else {
      var j :| 0 <= j < |b.writes| && WriteKey(b.writes[j]) == k;
      assert Then(a, b).writes[|a.writes| + j] == b.writes[j];
    }
  }

  /** Every service asked for is there already, or is written. */
  lemma {:induction false} CopiesWrote(snap: Snapshot, stable: Object, names: seq<string>, n: string)
    requires stable.body.ServiceBody? && n in names && n != stable.meta.name
    requires CopiesEffect(snap, stable, names).error.None?
    ensures Present(OBJECTS, snap, ServiceKey(n)) || Wrote(CopiesEffect(snap, stable, names), ServiceKey(n))
  {
    var less, last := names[..|names| - 1], names[|names| - 1];
    var shared := Mingled(snap, stable, less);
    var one := if last == stable.meta.name then Done() else CreateIfAbsent(snap, CopyService(shared, last));
    assert names == less + [last];
    if !Present(OBJECTS, snap, ServiceKey(n)) {
      if n == last {
        assert WriteKey(one.writes[0]) == ServiceKey(n);
      } else {
        CopiesWrote(snap, stable, less, n);
      }
      ThenWrote(CopiesEffect(snap, stable, less), one, ServiceKey(n));
    }
  }

  lemma ServicesWrote(snap: Snapshot, dep: Object, names: seq<string>, n: string)
    requires dep.body.DeploymentBody? && (n in names || n == dep.meta.name)
    requires ServicesEffect(snap, dep, names).error.None?
    ensures Present(OBJECTS, snap, ServiceKey(n)) || Wrote(ServicesEffect(snap, dep, names), ServiceKey(n))
  {
    var stable := StableService(snap, dep);
    var own, copies := CreateIfAbsent(snap, stable), CopiesEffect(snap, stable, names);
    if !Present(OBJECTS, snap, ServiceKey(n)) {
      if n == dep.meta.name {
        assert WriteKey(own.writes[0]) == ServiceKey(n);
      } else {
        CopiesWrote(snap, stable, names, n);
      }
      ThenWrote(own, copies, ServiceKey(n));
    }
  }

  ghost predicate ServicesThere(dir: Dir, dep: Object, s: Strategy) {
    && Present(OBJECTS, dir, ServiceKey(dep.meta.name))
    && forall n :: n in ServiceNames(dep, s) ==> Present(OBJECTS, dir, ServiceKey(n))
  }

  lemma PermittedPuts(dir: Dir, dep: Object, s: Strategy, ws: seq<Write<Object>>)
    requires AllPermitted(dir, dep, s, ws) && !Removes(s)
    ensures forall i :: 0 <= i < |ws| ==> ws[i].Put?
  {
  }

  /** The part of a canary setting that routes. */
  ghost function Routing(snap: Snapshot, dep: Object, s: Strategy): Effect<Object> {
    var c := CanaryOf(dep, s);
    if s.stype.Canary? && c.trafficRouting.Some? && c.trafficRouting.value.istio.Some? then
      IstioEffect(snap, dep, c.stableService, c.canaryService, c.trafficRouting.value.istio.value)
    else Done()
  }

  lemma PreparationParts(snap: Snapshot, dep: Object, s: Strategy)
    requires dep.body.DeploymentBody? && !Removes(s)
    ensures Preparation(snap, dep, s) == Then(ServicesEffect(snap, dep, ServiceNames(dep, s)), Routing(snap, dep, s))
  {
    var services := ServicesEffect(snap, dep, ServiceNames(dep, s));
    assert services.writes + [] == services.writes;
  }

  lemma RouteWrote(snap: Snapshot, dep: Object, s: Strategy, k: Key)
    requires RouteKey(dep, s) == Some(k) && Routing(snap, dep, s).error.None?
    ensures Present(OBJECTS, snap, k) || Wrote(Routing(snap, dep, s), k)
  {
    if !Present(OBJECTS, snap, k) {
      assert WriteKey(Routing(snap, dep, s).writes[0]) == k;
    }
  }

  /** Whatever a successful setting is to create is there already, or is written. */
  lemma CreatedWrote(snap: Snapshot, dep: Object, s: Strategy, k: Key)
    requires MainDeployment(snap) == Some(dep) && StrategyEffect(snap, s).error.None? && Creates(dep, s, k)
    ensures Present(OBJECTS, snap, k) || Wrote(StrategyEffect(snap, s), k)
  {
    var services, routing := ServicesEffect(snap, dep, ServiceNames(dep, s)), Routing(snap, dep, s);
    var rollout := EnsureRolloutEffect(snap, dep, Wanted(dep, s));
    TemporaryEffect(snap, dep, s);
    PreparationParts(snap, dep, s);
    if !Present(OBJECTS, snap, k) {
      match k.kind {
        case Service => ServicesWrote(snap, dep, ServiceNames(dep, s), k.name);
        case Rollout => assert WriteKey(rollout.writes[0]) == k;
        case _ => RouteWrote(snap, dep, s, k);
      }
      if !k.kind.Rollout? {
        ThenWrote(services, routing, k);
      }
      ThenWrote(Preparation(snap, dep, s), rollout, k);
    }
  }

  lemma CreatedThere(dir: Dir, dep: Object, s: Strategy, k: Key)
    requires UniqueKeys(OBJECTS, dir) && Free(dir, dep, s) && MainDeployment(Yamls(dir)) == Some(dep)
    requires ErrorOf(dir, s).None? && Creates(dep, s, k)
    ensures Present(OBJECTS, After(dir, s), k)
  {
    var e := StrategyEffect(Yamls(dir), s);
    StrategyLawful(dir, dep, s);
    CreatedWrote(Yamls(dir), dep, s, k);
    SnapshotWhere(OBJECTS, dir, k);
    PermittedPuts(dir, dep, s, e.writes);
    FinalPresent(e.writes, k, Read(OBJECTS, dir, k));
    ReadFinal(dir, dep, s, e.writes, k);
  }

  lemma ServicesAfter(dir: Dir, dep: Object, s: Strategy)
    requires UniqueKeys(OBJECTS, dir) && Free(dir, dep, s)
    requires MainDeployment(Yamls(dir)) == Some(dep) && !Removes(s) && ErrorOf(dir, s).None?
    ensures ServicesThere(After(dir, s), dep, s)
  {
    forall n | n in ServiceNames(dep, s) || n == dep.meta.name
      ensures Present(OBJECTS, After(dir, s), ServiceKey(n))
    {
      CreatedThere(dir, dep, s, ServiceKey(n));
    }
  }

  // ---- When a setting does no harm ----

  /** Every file is as it was, or holds a rewritten target under its own key and metadata. */
  ghost predicate Spared(dir: Dir, dep: Object, s: Strategy, files: Dir) {
    forall f :: f in dir ==> f in files && (files[f] == dir[f] || RewrittenAt(dir, dep, s, files, f))
  }

  ghost predicate RewrittenAt(dir: Dir, dep: Object, s: Strategy, files: Dir, f: string)
    requires f in dir && f in files
  {
    && IsYaml(f) && dir[f].Resource? && files[f].Resource?
    && dir[f].doc.Key() == files[f].doc.Key() && dir[f].doc.meta == files[f].doc.meta
    && dir[f].doc.Key() in Targets(dep, s)
  }

  /** Everything the setting depends on is there. */
  ghost predicate Supplied(dep: Object, s: Strategy, files: Dir) {
    forall k :: Creates(dep, s, k) ==> Present(OBJECTS, files, k)
  }

  /** If no file suffers and a missing resource is there afterwards, then its file was free. */
  lemma SparedWasFree(dir: Dir, dep: Object, s: Strategy, files: Dir, k: Key)
    requires Outcome(dir, dep, s, files) && Spared(dir, dep, s, files)
    requires !Present(OBJECTS, dir, k) && Present(OBJECTS, files, k)
    ensures FileName(k) !in dir
  {
    var g :| Holds(OBJECTS, files, g, k);
    HeldBefore(dir, dep, s, files, g, k);
  }

  /** A successful canary or blue-green setting destroys no file and leaves everything it depends on in place if and
      only if the file of every resource it has to create is free. */
  lemma HarmlessExactlyWhen(dir: Dir, dep: Object, s: Strategy)
    requires UniqueKeys(OBJECTS, dir) && MainDeployment(Yamls(dir)) == Some(dep)
    requires !Removes(s) && ErrorOf(dir, s).None?
    ensures Spared(dir, dep, s, After(dir, s)) && Supplied(dep, s, After(dir, s)) <==> Free(dir, dep, s)
  {
    var files := After(dir, s);
    SettingOutcome(dir, dep, s);
    if Free(dir, dep, s) {
      forall f | f in dir
        ensures f in files && (files[f] == dir[f] || RewrittenAt(dir, dep, s, files, f))
      {
        Ownership(dir, dep, s, files, f);
      }
      forall k | Creates(dep, s, k)
        ensures Present(OBJECTS, files, k)
      {
        CreatedThere(dir, dep, s, k);
      }
    }
    if Spared(dir, dep, s, files) && Supplied(dep, s, files) {
      forall k | Creates(dep, s, k) && !Present(OBJECTS, dir, k)
        ensures FileName(k) !in dir
      {
        SparedWasFree(dir, dep, s, files, k);
      }
    }
  }

  // ---- What a setting makes of services and the rollout ----

  /** Both services send to the same ports of the same pods. */
  predicate SamePods(o: Object, stable: Object) {
    && o.body.ServiceBody? && stable.body.ServiceBody?
    && o.body.service.ports == stable.body.service.ports && o.body.service.selector == stable.body.service.selector
  }

  /** Whatever services the effect writes send where the stable one does. */
  ghost predicate WritesSamePods(e: Effect<Object>, stable: Object) {
    forall i :: 0 <= i < |e.writes| && WriteKey(e.writes[i]).kind.Service? ==>
      e.writes[i].Put? && SamePods(e.writes[i].doc, stable)
  }

  lemma ThenSamePods(a: Effect<Object>, b: Effect<Object>, stable: Object)
    requires WritesSamePods(a, stable) && WritesSamePods(b, stable)
    ensures WritesSamePods(Then(a, b), stable)
  {
  }

  lemma {:induction false} CopiesSamePods(snap: Snapshot, stable: Object, names: seq<string>)
    requires stable.body.ServiceBody?
    ensures WritesSamePods(CopiesEffect(snap, stable, names), stable)
  {
    if names != [] {
      var less, last := names[..|names| - 1], names[|names| - 1];
      CopiesSamePods(snap, stable, less);
      ThenSamePods(CopiesEffect(snap, stable, less),
                   if last == stable.meta.name then Done()
                   else CreateIfAbsent(snap, CopyService(Mingled(snap, stable, less), last)), stable);
    }
  }

  lemma ServicesSamePods(snap: Snapshot, dep: Object, names: seq<string>)
    requires dep.body.DeploymentBody?
    ensures WritesSamePods(ServicesEffect(snap, dep, names), StableService(snap, dep))
  {
    var stable := StableService(snap, dep);
    CopiesSamePods(snap, stable, names);
    ThenSamePods(CreateIfAbsent(snap, stable), CopiesEffect(snap, stable, names), stable);
  }

  lemma IstioAddsNoService(snap: Snapshot, dep: Object, stableName: string, next: string, vs: ExtendedVirtualService)
    requires vs.routes != []
    ensures forall w :: w in IstioEffect(snap, dep, stableName, next, vs).writes ==> WriteKey(w).kind.VirtualService?
  {
    var k := NewVirtualService(dep, stableName, next, vs).Key();
    assert k == Key(VirtualService, vs.name);
  }

  lemma RoutingSamePods(snap: Snapshot, dep: Object, s: Strategy, stable: Object)
    ensures WritesSamePods(Routing(snap, dep, s), stable)
  {
    var c := CanaryOf(dep, s);
    if s.stype.Canary? && c.trafficRouting.Some? && c.trafficRouting.value.istio.Some? {
      IstioAddsNoService(snap, dep, c.stableService, c.canaryService, c.trafficRouting.value.istio.value);
    }
  }

  lemma PreparationSamePods(snap: Snapshot, dep: Object, s: Strategy)
    requires dep.body.DeploymentBody? && !Removes(s)
    ensures WritesSamePods(Preparation(snap, dep, s), StableService(snap, dep))
  {
    var stable, names := StableService(snap, dep), ServiceNames(dep, s);
    ServicesSamePods(snap, dep, names);
    RoutingSamePods(snap, dep, s, stable);
    PreparationParts(snap, dep, s);
    ThenSamePods(ServicesEffect(snap, dep, names), Routing(snap, dep, s), stable);
  }

  lemma SettingSamePods(snap: Snapshot, dep: Object, s: Strategy)
    requires MainDeployment(snap) == Some(dep) && !Removes(s)
    ensures WritesSamePods(Effect(StrategyEffect(snap, s).writes, None), StableService(snap, dep))
  {
    TemporaryEffect(snap, dep, s);
    PreparationSamePods(snap, dep, s);
    ThenSamePods(Preparation(snap, dep, s), EnsureRolloutEffect(snap, dep, Wanted(dep, s)), StableService(snap, dep));
  }

  lemma {:induction false} FinalSamePods(ws: seq<Write<Object>>, k: Key, stable: Object)
    requires k.kind.Service? && WritesSamePods(Effect(ws, None), stable)
    ensures Final(ws, k, None).Some? ==> SamePods(Final(ws, k, None).value, stable)
    decreases |ws|
  {
    if ws != [] && WriteKey(ws[|ws| - 1]) != k {
      var less := ws[..|ws| - 1];
      assert WritesSamePods(Effect(less, None), stable) by {
        assert forall i :: 0 <= i < |less| ==> less[i] == ws[i];
      }
      FinalSamePods(less, k, stable);
    }
  }

  /** Every service a canary or blue-green setting adds sends to the same ports of the same pods as the stable one, be
      that read or made from the deployment. */
  lemma NewServices(dir: Dir, dep: Object, s: Strategy, n: string)
    requires UniqueKeys(OBJECTS, dir) && Free(dir, dep, s)
    requires MainDeployment(Yamls(dir)) == Some(dep) && !Removes(s)
    requires !Present(OBJECTS, dir, ServiceKey(n)) && Present(OBJECTS, After(dir, s), ServiceKey(n))
    ensures SamePods(Read(OBJECTS, After(dir, s), ServiceKey(n)).value, StableService(Yamls(dir), dep))
  {
    var snap := Yamls(dir);
    var ws := StrategyEffect(snap, s).writes;
    SettingSamePods(snap, dep, s);
    StrategyLawful(dir, dep, s);
    ReadFinal(dir, dep, s, ws, ServiceKey(n));
    FinalSamePods(ws, ServiceKey(n), StableService(snap, dep));
  }

  /** The rollout a setting should leave, given the one that was there. */
  ghost predicate RolloutFits(r: Object, dep: Object, s: Strategy, before: Option<Object>)
    requires dep.body.DeploymentBody?
  {
    && r.body.RolloutBody? && r.status.None?
    && var spec := r.body.rollout;
       && spec.strategy == Wanted(dep, s) && spec.templateResolvedFromRef && spec.rest == ""
       && spec.selector == dep.body.deployment.selector && spec.workloadRef == Some(dep.meta.name)
       && match before
          case Some(old') =>
            old'.body.RolloutBody? && r.meta == old'.meta && spec.replicas == old'.body.rollout.replicas
          case None =>
            && r.meta == Meta(dep.meta.name, dep.meta.namespace, map[],
                              map["application.kubegems.io/is-generated-by" := "rollouts"], [])
            && spec.replicas == dep.body.deployment.replicas
  }

  lemma RolloutWritten(dir: Dir, dep: Object, s: Strategy)
    requires UniqueKeys(OBJECTS, dir) && MainDeployment(Yamls(dir)) == Some(dep)
    requires EnsureRolloutEffect(Yamls(dir), dep, Wanted(dep, s)).error.None?
    ensures var ws := EnsureRolloutEffect(Yamls(dir), dep, Wanted(dep, s)).writes;
            |ws| == 1 && ws[0].Put? && ws[0].doc.Key() == RolloutKey(dep)
            && RolloutFits(ws[0].doc, dep, s, Read(OBJECTS, dir, RolloutKey(dep)))
  {
    MainIsHeld(dir, dep);
    SnapshotWhere(OBJECTS, dir, dep.Key());
    SnapshotWhere(OBJECTS, dir, RolloutKey(dep));
  }

  /** After a canary or blue-green setting the rollout follows the deployment with the wanted strategy; one that was
      there keeps its metadata and replicas, a new one is marked and starts with the deployment's replicas. */
  lemma RolloutAfter(dir: Dir, dep: Object, s: Strategy) returns (r: Object)
    requires UniqueKeys(OBJECTS, dir) && Free(dir, dep, s)
    requires MainDeployment(Yamls(dir)) == Some(dep) && !Removes(s) && ErrorOf(dir, s).None?
    ensures Read(OBJECTS, After(dir, s), RolloutKey(dep)) == Some(r)
    ensures RolloutFits(r, dep, s, Read(OBJECTS, dir, RolloutKey(dep)))
  {
    var snap := Yamls(dir);
    RolloutLast(snap, dep, s);
    RolloutWritten(dir, dep, s);
    r := EnsureRolloutEffect(snap, dep, Wanted(dep, s)).writes[0].doc;
    StrategyLawful(dir, dep, s);
    ReadLastPut(dir, dep, s, StrategyEffect(snap, s).writes);
  }

  /** The rollout is what a successful setting writes last. */
  lemma RolloutLast(snap: Snapshot, dep: Object, s: Strategy)
    requires MainDeployment(snap) == Some(dep) && !Removes(s) && StrategyEffect(snap, s).error.None?
    ensures var e, ws := EnsureRolloutEffect(snap, dep, Wanted(dep, s)), StrategyEffect(snap, s).writes;
            e.error.None? && |e.writes| == 1 && ws != [] && ws[|ws| - 1] == e.writes[0]
  {
    TemporaryEffect(snap, dep, s);
    RolloutWrite(snap, dep, Wanted(dep, s));
  }

  // ---- The routed VirtualService ----

  /** The setting routes through a VirtualService. */
  predicate IstioRouted(dep: Object, s: Strategy) {
    RouteKey(dep, s).Some?
  }

  /** The route the setting asks for. */
  function WantedRoute(dep: Object, s: Strategy): HttpRoute
    requires IstioRouted(dep, s)
  {
    var c := CanaryOf(dep, s);
    var vs := c.trafficRouting.value.istio.value;
    CanaryRoute(vs.routes[0], c.stableService, c.canaryService, vs)
  }

  /** The routes of the VirtualService, if it is there. */
  ghost function RoutesOf(dir: Dir, k: Key): Option<seq<HttpRoute>> {
    var o := Read(OBJECTS, dir, k);
    if o.Some? && o.value.body.VirtualServiceBody? then Some(o.value.body.virtualService.http) else None
  }

  /** What a setting makes of them: a new VirtualService starts with the wanted route and a plain one. */
  function Rerouted(before: Option<seq<HttpRoute>>, dep: Object, s: Strategy): seq<HttpRoute>
    requires IstioRouted(dep, s)
  {
    match before
    case None => [WantedRoute(dep, s), HttpRoute("", [], [Destination(CanaryOf(dep, s).stableService, 0, "")], "")]
    case Some(http) => Placed(http, WantedRoute(dep, s)).0
  }

  lemma {:induction false} FinalUntouched(ws: seq<Write<Object>>, k: Key, before: Option<Object>)
    requires forall i :: 0 <= i < |ws| ==> WriteKey(ws[i]) != k
    ensures Final(ws, k, before) == before
    decreases |ws|
  {
    if ws != [] {
      FinalUntouched(ws[..|ws| - 1], k, before);
    }
  }

  lemma {:induction false} CopiesAreServices(snap: Snapshot, stable: Object, names: seq<string>)
    requires stable.body.ServiceBody?
    ensures forall w :: w in CopiesEffect(snap, stable, names).writes ==> WriteKey(w).kind.Service?
  {
    if names != [] {
      CopiesAreServices(snap, stable, names[..|names| - 1]);
    }
  }

  lemma ServicesAreServices(snap: Snapshot, dep: Object, names: seq<string>)
    requires dep.body.DeploymentBody?
    ensures forall w :: w in ServicesEffect(snap, dep, names).writes ==> WriteKey(w).kind.Service?
  {
    CopiesAreServices(snap, StableService(snap, dep), names);
  }

  lemma FinalShort(w: Write<Object>, k: Key, before: Option<Object>)
    ensures Final([], k, before) == before
    ensures WriteKey(w) == k && w.Put? ==> Final([w], k, before) == Some(w.doc)
  {
  }

  /** The routing step alone. */
  lemma IstioFinal(snap: Snapshot, dep: Object, stable: string, next: string, vs: ExtendedVirtualService)
    requires vs.routes != [] && IstioEffect(snap, dep, stable, next, vs).error.None?
    ensures var k, target := Key(VirtualService, vs.name), NewVirtualService(dep, stable, next, vs);
            var after := Final(IstioEffect(snap, dep, stable, next, vs).writes, k, Read(OBJECTS, snap, k));
            && after.Some? && after.value.body.VirtualServiceBody?
            && after.value.body.virtualService.http ==
               match RoutesOf(snap, k)
               case None => target.body.virtualService.http
               case Some(http) => Placed(http, target.body.virtualService.http[0]).0
  {
    var k, target := Key(VirtualService, vs.name), NewVirtualService(dep, stable, next, vs);
    var before := Read(OBJECTS, snap, k);
    match before
    case None => FinalShort(Put(FileName(k), target.Settled()), k, before);
    case Some(exist) =>
      var placed := Placed(exist.body.virtualService.http, target.body.virtualService.http[0]);
      UnwrittenIsSame(exist.body.virtualService.http, target.body.virtualService.http[0]);
      FinalShort(Put(Where(OBJECTS, snap, k).value, WithRoutes(exist, placed.0).Settled()), k, before);
  }

  lemma RoutingFinal(snap: Snapshot, dep: Object, s: Strategy, k: Key)
    requires RouteKey(dep, s) == Some(k) && Routing(snap, dep, s).error.None? && dep.body.DeploymentBody?
    ensures var before := Read(OBJECTS, snap, k);
            var after := Final(Routing(snap, dep, s).writes, k, before);
            && after.Some? && after.value.body.VirtualServiceBody?
            && after.value.body.virtualService.http == Rerouted(RoutesOf(snap, k), dep, s)
  {
    var c := CanaryOf(dep, s);
    IstioFinal(snap, dep, c.stableService, c.canaryService, c.trafficRouting.value.istio.value);
  }

  /** Services and rollout do not touch it. */
  lemma OnlyRoutingCounts(services: seq<Write<Object>>, routing: seq<Write<Object>>, rollout: seq<Write<Object>>,
                          k: Key, before: Option<Object>)
    requires forall i :: 0 <= i < |services| ==> WriteKey(services[i]) != k
    requires forall i :: 0 <= i < |rollout| ==> WriteKey(rollout[i]) != k
    ensures Final(services + routing + rollout, k, before) == Final(routing, k, before)
  {
    FinalUntouched(services, k, before);
    FinalUntouched(rollout, k, Final(routing, k, before));
    FinalAppend(services, routing, k, before);
    FinalAppend(services + routing, rollout, k, before);
  }

  lemma SettingFinal(snap: Snapshot, dep: Object, s: Strategy, k: Key, before: Option<Object>)
    requires MainDeployment(snap) == Some(dep) && RouteKey(dep, s) == Some(k) && StrategyEffect(snap, s).error.None?
    ensures Routing(snap, dep, s).error.None?
    ensures Final(StrategyEffect(snap, s).writes, k, before) == Final(Routing(snap, dep, s).writes, k, before)
  {
    var services, routing := ServicesEffect(snap, dep, ServiceNames(dep, s)), Routing(snap, dep, s);
    var rollout := EnsureRolloutEffect(snap, dep, Wanted(dep, s));
    TemporaryEffect(snap, dep, s);
    PreparationParts(snap, dep, s);
    ServicesAreServices(snap, dep, ServiceNames(dep, s));
    RolloutWrite(snap, dep, Wanted(dep, s));
    OnlyRoutingCounts(services.writes, routing.writes, rollout.writes, k, before);
  }

  /** After a successful setting the VirtualService is there, with its routes placed once more. */
  lemma RouteAfter(dir: Dir, dep: Object, s: Strategy, k: Key)
    requires UniqueKeys(OBJECTS, dir) && Free(dir, dep, s)
    requires MainDeployment(Yamls(dir)) == Some(dep) && RouteKey(dep, s) == Some(k) && ErrorOf(dir, s).None?
    ensures RoutesOf(After(dir, s), k) == Some(Rerouted(RoutesOf(dir, k), dep, s))
  {
    var snap := Yamls(dir);
    SnapshotWhere(OBJECTS, dir, k);
    SettingFinal(snap, dep, s, k, Read(OBJECTS, dir, k));
    RoutingFinal(snap, dep, s, k);
    StrategyLawful(dir, dep, s);
    ReadFinal(dir, dep, s, StrategyEffect(snap, s).writes, k);
  }
}
