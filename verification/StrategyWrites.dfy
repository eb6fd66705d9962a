/** What a strategy change may write, and what that leaves of the directory: ownership of generated resources, unique
    keys, fresh names, and the documents that can be read afterwards. */
module StrategyWrites {
  import opened Wrappers
  import opened ManifestStore
  import opened Workloads
  import opened StrategySpec
  import opened StoreRefinement

  type Dir = Directory<Object>

  const GENERATED_KINDS := {Service, Rollout, VirtualService}

  /** The resource is there, and the platform did not make it, so it never removes it either. */
  ghost predicate Owned(dir: Dir, k: Key) {
    exists f :: Holds(OBJECTS, dir, f, k) && !Generated(dir[f].doc)
  }

  /** Where one of these resources would be created, there is nothing but that resource. */
  ghost predicate FreshNames(dir: Dir, keys: set<Key>) {
    forall k: Key ::
      k in keys && k.kind in GENERATED_KINDS && !Owned(dir, k) && FileName(k) in dir ==>
      Holds(OBJECTS, dir, FileName(k), k)
  }

  ghost predicate Removes(s: Strategy) {
    !s.stype.Canary? && !s.stype.BlueGreen?
  }

  /** The completed request of a canary setting. */
  function CanaryOf(dep: Object, s: Strategy): ExtendedCanaryStrategy {
    CompleteCanary(dep, if s.canary.Some? then s.canary.value else EMPTY_CANARY)
  }

  function BlueGreenOf(dep: Object, s: Strategy): BlueGreenStrategy {
    CompleteBlueGreen(dep, if s.blueGreen.Some? then s.blueGreen.value else EMPTY_BLUE_GREEN)
  }

  /** The services a setting depends on. */
  function ServiceNames(dep: Object, s: Strategy): seq<string> {
    if s.stype.Canary? then [CanaryOf(dep, s).stableService, CanaryOf(dep, s).canaryService]
    else [BlueGreenOf(dep, s).activeService, BlueGreenOf(dep, s).previewService]
  }

  /** The VirtualService a canary strategy routes through. */
  function RouteKey(dep: Object, s: Strategy): Option<Key> {
    if s.stype.Canary? then
      var tr := CanaryOf(dep, s).trafficRouting;
      if tr.Some? && tr.value.istio.Some? then Some(Key(VirtualService, tr.value.istio.value.name)) else None
    else None
  }

  /** The resources a strategy change may create. */
  ghost predicate Creates(dep: Object, s: Strategy, k: Key) {
    !Removes(s) &&
    match k.kind
    case Service => k.name == dep.meta.name || k.name in ServiceNames(dep, s)
    case Rollout => k == RolloutKey(dep)
    case VirtualService => RouteKey(dep, s) == Some(k)
    case _ => false
  }

  /** The keys include every resource the change may create. */
  ghost predicate Covers(keys: set<Key>, dep: Object, s: Strategy) {
    forall k :: Creates(dep, s, k) ==> k in keys
  }

  /** The existing resources a strategy change may rewrite. */
  ghost function Targets(dep: Object, s: Strategy): set<Key> {
    (if s.stype.RollingUpdate? || s.stype.Recreate? then {dep.Key()} else {}) +
    (if s.stype.Canary? || s.stype.BlueGreen? then {RolloutKey(dep)} else {}) +
    (if RouteKey(dep, s).Some? then {RouteKey(dep, s).value} else {})
  }

  /** A write a strategy change may make, judged by the directory it started from. */
  ghost predicate Permitted(dir: Dir, dep: Object, s: Strategy, w: Write<Object>) {
    match w
    case Put(f, o) =>
      if Present(OBJECTS, dir, o.Key()) then
        Holds(OBJECTS, dir, f, o.Key()) && o.meta == dir[f].doc.meta && o.Key() in Targets(dep, s)
      else f == FileName(o.Key()) && Generated(o) && Creates(dep, s, o.Key())
    case Remove(f, k) => Removes(s) && Holds(OBJECTS, dir, f, k) && Generated(dir[f].doc)
  }

  ghost predicate AllPermitted(dir: Dir, dep: Object, s: Strategy, ws: seq<Write<Object>>) {
    forall i :: 0 <= i < |ws| ==> Permitted(dir, dep, s, ws[i])
  }

  /** Whatever the change creates goes to a free file. */
  ghost predicate Free(dir: Dir, dep: Object, s: Strategy) {
    forall k :: Creates(dep, s, k) && !Present(OBJECTS, dir, k) ==> FileName(k) !in dir
  }

  lemma FreshIsFree(dir: Dir, keys: set<Key>, dep: Object, s: Strategy)
    requires FreshNames(dir, keys) && Covers(keys, dep, s)
    ensures Free(dir, dep, s)
  {
    forall k | Creates(dep, s, k) && !Present(OBJECTS, dir, k)
      ensures FileName(k) !in dir
    {
      assert k in keys && k.kind in GENERATED_KINDS;
    }
  }

  // ---- Every write of a strategy change is lawful ----

  lemma ThenLawful(dir: Dir, dep: Object, s: Strategy, a: Effect<Object>, b: Effect<Object>)
    requires AllPermitted(dir, dep, s, a.writes) && AllPermitted(dir, dep, s, b.writes)
    ensures AllPermitted(dir, dep, s, Then(a, b).writes)
  {
  }

  lemma CreateLawful(dir: Dir, dep: Object, s: Strategy, o: Object)
    requires UniqueKeys(OBJECTS, dir) && Generated(o) && Creates(dep, s, o.Key())
    ensures AllPermitted(dir, dep, s, CreateEffect(OBJECTS, Yamls(dir), o).writes)
    ensures AllPermitted(dir, dep, s, CreateIfAbsent(Yamls(dir), o).writes)
  {
    SnapshotWhere(OBJECTS, dir, o.Key());
    assert o.Settled().Key() == o.Key();
  }

  /** Rewriting what was read under the key, with its metadata kept. */
  lemma UpdateLawful(dir: Dir, dep: Object, s: Strategy, exist: Object, o: Object)
    requires UniqueKeys(OBJECTS, dir) && Read(OBJECTS, dir, o.Key()) == Some(exist)
    requires o.meta == exist.meta && o.Key() in Targets(dep, s)
    ensures AllPermitted(dir, dep, s, UpdateEffect(OBJECTS, Yamls(dir), o).writes)
  {
  }

  lemma {:induction false} CopiesLawful(dir: Dir, dep: Object, s: Strategy, stable: Object, names: seq<string>)
    requires UniqueKeys(OBJECTS, dir) && stable.body.ServiceBody?
    requires forall n :: n in names ==> Creates(dep, s, ServiceKey(n))
    ensures AllPermitted(dir, dep, s, CopiesEffect(Yamls(dir), stable, names).writes)
  {
    if names != [] {
      var less, last := names[..|names| - 1], names[|names| - 1];
      CopiesLawful(dir, dep, s, stable, less);
      var shared := Mingled(Yamls(dir), stable, less);
      assert CopyService(shared, last).Key() == ServiceKey(last) && last in names;
      CreateLawful(dir, dep, s, CopyService(shared, last));
    }
  }

  lemma ServicesLawful(dir: Dir, dep: Object, s: Strategy)
    requires UniqueKeys(OBJECTS, dir) && dep.body.DeploymentBody? && !Removes(s)
    ensures AllPermitted(dir, dep, s, ServicesEffect(Yamls(dir), dep, ServiceNames(dep, s)).writes)
  {
    var names := ServiceNames(dep, s);
    var stable := StableService(Yamls(dir), dep);
    CopiesLawful(dir, dep, s, stable, names);
    if !Present(OBJECTS, Yamls(dir), ServiceKey(dep.meta.name)) {
      CreateLawful(dir, dep, s, stable);
    }
    ThenLawful(dir, dep, s, CreateIfAbsent(Yamls(dir), stable), CopiesEffect(Yamls(dir), stable, names));
  }

  lemma RoutesLawful(dir: Dir, dep: Object, s: Strategy, stable: string, next: string, vs: ExtendedVirtualService)
    requires UniqueKeys(OBJECTS, dir) && vs.routes != [] && RouteKey(dep, s) == Some(Key(VirtualService, vs.name))
    ensures AllPermitted(dir, dep, s, IstioEffect(Yamls(dir), dep, stable, next, vs).writes)
  {
    var target := NewVirtualService(dep, stable, next, vs);
    SnapshotWhere(OBJECTS, dir, target.Key());
    CreateLawful(dir, dep, s, target);
    var exist := Read(OBJECTS, Yamls(dir), target.Key());
    if exist.Some? {
      var placed := Routes.Placed(exist.value.body.virtualService.http, target.body.virtualService.http[0]);
      UpdateLawful(dir, dep, s, exist.value, WithRoutes(exist.value, placed.0));
    }
  }

  /** Creating a resource, or rewriting the one that is there with its metadata kept. */
  lemma PlaceLawful(dir: Dir, dep: Object, s: Strategy, o: Object, rewritten: Object)
    requires UniqueKeys(OBJECTS, dir) && Generated(o) && Creates(dep, s, o.Key()) && o.Key() in Targets(dep, s)
    requires Read(OBJECTS, dir, o.Key()).Some? ==>
               rewritten.Key() == o.Key() && rewritten.meta == Read(OBJECTS, dir, o.Key()).value.meta
    ensures AllPermitted(dir, dep, s, CreateEffect(OBJECTS, Yamls(dir), o).writes)
    ensures Read(OBJECTS, Yamls(dir), o.Key()) == Read(OBJECTS, dir, o.Key())
    ensures Read(OBJECTS, dir, o.Key()).Some? ==>
              AllPermitted(dir, dep, s, UpdateEffect(OBJECTS, Yamls(dir), rewritten).writes)
  {
    CreateLawful(dir, dep, s, o);
    SnapshotWhere(OBJECTS, dir, o.Key());
    var exist := Read(OBJECTS, dir, o.Key());
    if exist.Some? {
      UpdateLawful(dir, dep, s, exist.value, rewritten);
    }
  }

  lemma EnsureRolloutLawful(dir: Dir, dep: Object, s: Strategy, rs: RolloutStrategy)
    requires UniqueKeys(OBJECTS, dir) && dep.body.DeploymentBody?
    requires RolloutKey(dep) in Targets(dep, s) && Creates(dep, s, RolloutKey(dep))
    ensures AllPermitted(dir, dep, s, EnsureRolloutEffect(Yamls(dir), dep, rs).writes)
  {
    var found := Read(OBJECTS, Yamls(dir), Key(Deployment, dep.meta.name));
    var rollout := NewRollout(dep, rs, if found.Some? then found.value.body.deployment.replicas else None);
    var exist := Read(OBJECTS, dir, RolloutKey(dep));
    PlaceLawful(dir, dep, s, rollout, if exist.Some? then WithRollout(exist.value, rollout) else rollout);
  }

  lemma MainIsHeld(dir: Dir, dep: Object)
    requires UniqueKeys(OBJECTS, dir) && MainDeployment(Yamls(dir)) == Some(dep)
    ensures Read(OBJECTS, dir, dep.Key()) == Some(dep)
  {
    var f :| HoldsDeployment(Yamls(dir), f) && Yamls(dir)[f].doc == dep;
    assert Holds(OBJECTS, dir, f, dep.Key());
  }

  lemma CanaryPreparationLawful(dir: Dir, dep: Object, s: Strategy, canary: ExtendedCanaryStrategy)
    requires UniqueKeys(OBJECTS, dir) && dep.body.DeploymentBody? && s.stype.Canary?
    requires canary == if s.canary.Some? then s.canary.value else EMPTY_CANARY
    ensures AllPermitted(dir, dep, s, CanaryEffect(Yamls(dir), dep, canary).writes)
  {
    var c := CompleteCanary(dep, canary);
    ServicesLawful(dir, dep, s);
    if c.trafficRouting.Some? && c.trafficRouting.value.istio.Some? {
      RoutesLawful(dir, dep, s, c.stableService, c.canaryService, c.trafficRouting.value.istio.value);
    }
  }

  lemma CanaryLawful(dir: Dir, dep: Object, s: Strategy)
    requires UniqueKeys(OBJECTS, dir) && dep.body.DeploymentBody? && s.stype.Canary?
    ensures AllPermitted(dir, dep, s, RolloutEffect(Yamls(dir), dep, s).writes)
  {
    var canary := if s.canary.Some? then s.canary.value else EMPTY_CANARY;
    var rs := RolloutStrategy(Some(CompleteCanary(dep, canary).ToCanaryStrategy()), None);
    CanaryPreparationLawful(dir, dep, s, canary);
    EnsureRolloutLawful(dir, dep, s, rs);
    ThenLawful(dir, dep, s, CanaryEffect(Yamls(dir), dep, canary), EnsureRolloutEffect(Yamls(dir), dep, rs));
  }

  lemma BlueGreenLawful(dir: Dir, dep: Object, s: Strategy)
    requires UniqueKeys(OBJECTS, dir) && dep.body.DeploymentBody? && s.stype.BlueGreen?
    ensures AllPermitted(dir, dep, s, RolloutEffect(Yamls(dir), dep, s).writes)
  {
    ServicesLawful(dir, dep, s);
    EnsureRolloutLawful(dir, dep, s, RolloutStrategy(None, Some(BlueGreenOf(dep, s))));
  }

  lemma DeploymentLawful(dir: Dir, dep: Object, s: Strategy)
    requires UniqueKeys(OBJECTS, dir) && MainDeployment(Yamls(dir)) == Some(dep)
    ensures AllPermitted(dir, dep, s, DeploymentEffect(Yamls(dir), dep, s).writes)
  {
    MainIsHeld(dir, dep);
    if s.stype.RollingUpdate? || s.stype.Recreate? {
      UpdateLawful(dir, dep, s, dep, WithStrategy(dep, s));
    }
  }

  lemma StrategyLawful(dir: Dir, dep: Object, s: Strategy)
    requires UniqueKeys(OBJECTS, dir) && MainDeployment(Yamls(dir)) == Some(dep)
    ensures AllPermitted(dir, dep, s, StrategyEffect(Yamls(dir), s).writes)
  {
    DeploymentLawful(dir, dep, s);
    if s.stype.Canary? {
      CanaryLawful(dir, dep, s);
    } else if s.stype.BlueGreen? {
      BlueGreenLawful(dir, dep, s);
    } else {
      CleanLawful(dir, dep, s);
      assert RolloutEffect(Yamls(dir), dep, s) == CleanEffect(Yamls(dir));
    }
    ThenLawful(dir, dep, s, DeploymentEffect(Yamls(dir), dep, s), RolloutEffect(Yamls(dir), dep, s));
  }

  lemma CleanLawful(dir: Dir, dep: Object, s: Strategy)
    requires Removes(s)
    ensures AllPermitted(dir, dep, s, CleanEffect(Yamls(dir)).writes)
  {
    var names := Listing(GeneratedFiles(Yamls(dir)));
    assert forall i :: 0 <= i < |names| ==> names[i] in names;
  }

  // ---- What lawful writes leave ----

  /** Each file is as it was, or rewritten in place under its own key, or newly generated; only generated files went. */
  ghost predicate Outcome(dir: Dir, dep: Object, s: Strategy, files: Dir) {
    && (forall f :: f in files && !(f in dir && files[f] == dir[f]) ==>
          files[f].Resource? && Permitted(dir, dep, s, Put(f, files[f].doc)))
    && (forall f :: f in dir && f !in files ==>
          Removes(s) && IsYaml(f) && dir[f].Resource? && Generated(dir[f].doc))
  }

  lemma {:induction false} LawfulOutcome(dir: Dir, dep: Object, s: Strategy, ws: seq<Write<Object>>)
    requires AllPermitted(dir, dep, s, ws)
    ensures Outcome(dir, dep, s, Perform(dir, ws))
    decreases |ws|
  {
    if ws != [] {
      LawfulOutcome(dir, dep, s, ws[..|ws| - 1]);
    }
  }

  /** A file that holds a key afterwards held it before, or is the new file of a key that was absent. */
  lemma HeldBefore(dir: Dir, dep: Object, s: Strategy, files: Dir, f: string, k: Key)
    requires Outcome(dir, dep, s, files) && Holds(OBJECTS, files, f, k)
    ensures Holds(OBJECTS, dir, f, k) || (!Present(OBJECTS, dir, k) && f == FileName(k) && Creates(dep, s, k))
  {
  }

  lemma UniqueKept(dir: Dir, dep: Object, s: Strategy, files: Dir)
    requires UniqueKeys(OBJECTS, dir) && Outcome(dir, dep, s, files)
    ensures UniqueKeys(OBJECTS, files)
  {
    forall f, g, k | Holds(OBJECTS, files, f, k) && Holds(OBJECTS, files, g, k)
      ensures f == g
    {
      HeldBefore(dir, dep, s, files, f, k);
      HeldBefore(dir, dep, s, files, g, k);
    }
  }

  lemma GeneratedNames(j: Key, k: Key)
    requires j.kind in GENERATED_KINDS && k.kind in GENERATED_KINDS && FileName(j) == FileName(k)
    ensures j == k
  {
    FileNameInjective(j, k);
    assert |KindName(Service)| == 7 && |KindName(VirtualService)| == 14 && |KindName(Rollout)| == 7;
    assert KindName(Service)[0] != KindName(Rollout)[0];
  }

  lemma OwnedKept(dir: Dir, dep: Object, s: Strategy, files: Dir, k: Key)
    requires UniqueKeys(OBJECTS, dir) && Free(dir, dep, s) && Outcome(dir, dep, s, files) && Owned(dir, k)
    ensures Owned(files, k)
  {
    var f :| Holds(OBJECTS, dir, f, k) && !Generated(dir[f].doc);
    Ownership(dir, dep, s, files, f);
    assert Holds(OBJECTS, files, f, k);
  }

  lemma FreshKept(dir: Dir, keys: set<Key>, dep: Object, s: Strategy, files: Dir)
    requires UniqueKeys(OBJECTS, dir) && FreshNames(dir, keys) && Covers(keys, dep, s)
    requires Outcome(dir, dep, s, files)
    ensures FreshNames(files, keys)
  {
    FreshIsFree(dir, keys, dep, s);
    forall k: Key | k in keys && k.kind in GENERATED_KINDS && !Owned(files, k) && FileName(k) in files
      ensures Holds(OBJECTS, files, FileName(k), k)
    {
      FreshAt(dir, keys, dep, s, files, k);
    }
  }

  lemma FreshAt(dir: Dir, keys: set<Key>, dep: Object, s: Strategy, files: Dir, k: Key)
    requires UniqueKeys(OBJECTS, dir) && FreshNames(dir, keys) && Free(dir, dep, s) && Outcome(dir, dep, s, files)
    requires k in keys && k.kind in GENERATED_KINDS && !Owned(files, k) && FileName(k) in files
    ensures Holds(OBJECTS, files, FileName(k), k)
  {
    var f := FileName(k);
    FileNameIsYaml(k);
    if Owned(dir, k) {
      OwnedKept(dir, dep, s, files, k);
    }
    if f in dir {
      assert Holds(OBJECTS, dir, f, k);
      Ownership(dir, dep, s, files, f);
    } else {
      Ownership(dir, dep, s, files, f);
      GeneratedNames(k, files[f].doc.Key());
    }
  }

  /** Ownership: a strategy change deletes no file but generated resources; it changes no other file unless that holds
      the deployment, the rollout of its name or the routed VirtualService, which it rewrites in place with their
      metadata; and every file it adds is a generated resource. */
  lemma Ownership(dir: Dir, dep: Object, s: Strategy, files: Dir, f: string)
    requires UniqueKeys(OBJECTS, dir) && Free(dir, dep, s) && Outcome(dir, dep, s, files)
    ensures f in dir && !(Removes(s) && IsYaml(f) && dir[f].Resource? && Generated(dir[f].doc)) ==> f in files
    ensures f in dir && f in files && files[f] != dir[f] ==>
              && IsYaml(f) && dir[f].Resource? && files[f].Resource?
              && files[f].doc.Key() == dir[f].doc.Key() && dir[f].doc.Key() in Targets(dep, s)
              && files[f].doc.meta == dir[f].doc.meta
    ensures f in files && f !in dir ==>
              && files[f].Resource? && Generated(files[f].doc)
              && f == FileName(files[f].doc.Key()) && Creates(dep, s, files[f].doc.Key())
  {
  }

  // ---- What can be read afterwards ----

  function WriteKey(w: Write<Object>): Key {
    match w
    case Put(_, o) => o.Key()
    case Remove(_, k) => k
  }

  /** The last write of a key decides; without one, what was there before. */
  function Final(ws: seq<Write<Object>>, k: Key, before: Option<Object>): Option<Object> {
    if ws == [] then before
    else
      var last := ws[|ws| - 1];
      if WriteKey(last) == k then (if last.Put? then Some(last.doc) else None)
      else Final(ws[..|ws| - 1], k, before)
  }

  /** Whatever key the file of a lawful write holds on the way is the key being written. */
  lemma HomeKey(dir: Dir, dep: Object, s: Strategy, files: Dir, w: Write<Object>, k: Key)
    requires UniqueKeys(OBJECTS, dir) && Free(dir, dep, s) && Outcome(dir, dep, s, files) && Permitted(dir, dep, s, w)
    requires Holds(OBJECTS, files, w.file, k)
    ensures k == WriteKey(w)
  {
    HeldBefore(dir, dep, s, files, w.file, k);
    if w.Put? && !Present(OBJECTS, dir, w.doc.Key()) {
      GeneratedNames(k, w.doc.Key());
    }
  }

  lemma {:induction false} ReadFinal(dir: Dir, dep: Object, s: Strategy, ws: seq<Write<Object>>, k: Key)
    requires UniqueKeys(OBJECTS, dir) && Free(dir, dep, s) && AllPermitted(dir, dep, s, ws)
    ensures Read(OBJECTS, Perform(dir, ws), k) == Final(ws, k, Read(OBJECTS, dir, k))
    decreases |ws|
  {
    if ws != [] {
      var less, last := ws[..|ws| - 1], ws[|ws| - 1];
      var files := Perform(dir, less);
      ReadFinal(dir, dep, s, less, k);
      LawfulOutcome(dir, dep, s, less);
      LawfulOutcome(dir, dep, s, ws);
      UniqueKept(dir, dep, s, files);
      UniqueKept(dir, dep, s, Perform(dir, ws));
      ReadWrite(dir, dep, s, files, last, k);
    }
  }

  /** The last write of all reads back. */
  lemma ReadLastPut(dir: Dir, dep: Object, s: Strategy, ws: seq<Write<Object>>)
    requires UniqueKeys(OBJECTS, dir) && Free(dir, dep, s) && AllPermitted(dir, dep, s, ws)
    requires ws != [] && ws[|ws| - 1].Put?
    ensures var o := ws[|ws| - 1].doc; Read(OBJECTS, Perform(dir, ws), o.Key()) == Some(o)
  {
    ReadFinal(dir, dep, s, ws, ws[|ws| - 1].doc.Key());
  }

  lemma ReadOther(dir: Dir, dep: Object, s: Strategy, files: Dir, w: Write<Object>, k: Key)
    requires UniqueKeys(OBJECTS, dir) && Free(dir, dep, s) && Outcome(dir, dep, s, files) && Permitted(dir, dep, s, w)
    requires UniqueKeys(OBJECTS, files) && WriteKey(w) != k
    ensures Read(OBJECTS, PerformOne(files, w), k) == Read(OBJECTS, files, k)
  {
    var after := PerformOne(files, w);
    forall g
      ensures Holds(OBJECTS, files, g, k) <==> Holds(OBJECTS, after, g, k)
      ensures Holds(OBJECTS, files, g, k) ==> files[g] == after[g]
    {
      if g == w.file && Holds(OBJECTS, files, g, k) {
        HomeKey(dir, dep, s, files, w, k);
      }
    }
    SameRead(OBJECTS, files, after, k);
  }

  lemma ReadRemoved(dir: Dir, dep: Object, s: Strategy, files: Dir, w: Write<Object>, k: Key)
    requires UniqueKeys(OBJECTS, dir) && Free(dir, dep, s) && Outcome(dir, dep, s, files) && Permitted(dir, dep, s, w)
    requires UniqueKeys(OBJECTS, files) && WriteKey(w) == k && w.Remove?
    ensures Read(OBJECTS, PerformOne(files, w), k) == None
  {
    forall g
      ensures !Holds(OBJECTS, PerformOne(files, w), g, k)
    {
      if Holds(OBJECTS, files, g, k) {
        HeldBefore(dir, dep, s, files, g, k);
      }
    }
  }

  lemma ReadWrite(dir: Dir, dep: Object, s: Strategy, files: Dir, w: Write<Object>, k: Key)
    requires UniqueKeys(OBJECTS, dir) && Free(dir, dep, s) && Outcome(dir, dep, s, files) && Permitted(dir, dep, s, w)
    requires UniqueKeys(OBJECTS, files) && UniqueKeys(OBJECTS, PerformOne(files, w))
    ensures Read(OBJECTS, PerformOne(files, w), k) ==
            if WriteKey(w) == k then (if w.Put? then Some(w.doc) else None) else Read(OBJECTS, files, k)
  {
    var after := PerformOne(files, w);
    if WriteKey(w) != k {
      ReadOther(dir, dep, s, files, w, k);
    } else if w.Put? {
      FileNameIsYaml(k);
      assert Holds(OBJECTS, after, w.file, k);
    } else {
      ReadRemoved(dir, dep, s, files, w, k);
    }
  }

  lemma {:induction false} FinalAppend(a: seq<Write<Object>>, b: seq<Write<Object>>, k: Key, before: Option<Object>)
    ensures Final(a + b, k, before) == Final(b, k, Final(a, k, before))
    decreases |b|
  {
    if b == [] {
      assert a + b == a;
    } else {
      assert (a + b)[..|a + b| - 1] == a + b[..|b| - 1];
      FinalAppend(a, b[..|b| - 1], k, before);
    }
  }
}
