/** What setting deployment strategies leaves of other files, once and over whole runs: ownership, and undoing. */
module StrategyProofs {
  import opened Wrappers
  import opened ManifestStore
  import opened Workloads
  import opened StrategySpec
  import opened StrategyWrites
  import opened StoreRefinement
  import opened Pipeline
  import opened Strategies

  /** The files after setting a strategy, before the index is updated. */
  ghost function After(dir: Dir, s: Strategy): Dir {
    Perform(dir, StrategyEffect(Yamls(dir), s).writes)
  }

  ghost function ErrorOf(dir: Dir, s: Strategy): Option<Error> {
    StrategyEffect(Yamls(dir), s).error
  }

  /** One file for every key, and free names for what may be created. */
  ghost predicate Tidy(dir: Dir, keys: set<Key>) {
    UniqueKeys(OBJECTS, dir) && FreshNames(dir, keys)
  }

  /** The keys include whatever setting the strategy here may create. */
  ghost predicate CoversAt(keys: set<Key>, dir: Dir, s: Strategy) {
    MainDeployment(Yamls(dir)).Some? ==> Covers(keys, MainDeployment(Yamls(dir)).value, s)
  }

  lemma SettingOutcome(dir: Dir, dep: Object, s: Strategy)
    requires UniqueKeys(OBJECTS, dir) && MainDeployment(Yamls(dir)) == Some(dep)
    ensures Outcome(dir, dep, s, After(dir, s)) && UniqueKeys(OBJECTS, After(dir, s))
  {
    StrategyLawful(dir, dep, s);
    LawfulOutcome(dir, dep, s, StrategyEffect(Yamls(dir), s).writes);
    UniqueKept(dir, dep, s, After(dir, s));
  }

  /** Setting a strategy, successfully or not, keeps the directory tidy. */
  lemma TidyKept(dir: Dir, keys: set<Key>, s: Strategy)
    requires Tidy(dir, keys) && CoversAt(keys, dir, s)
    ensures Tidy(After(dir, s), keys)
    ensures MainDeployment(Yamls(dir)).None? ==> After(dir, s) == dir && ErrorOf(dir, s).Some?
    ensures forall dep :: MainDeployment(Yamls(dir)) == Some(dep) ==> Outcome(dir, dep, s, After(dir, s))
  {
    match MainDeployment(Yamls(dir))
    case None =>
    case Some(dep) =>
      SettingOutcome(dir, dep, s);
      FreshKept(dir, keys, dep, s, After(dir, s));
  }

  /** Whether setting a strategy succeeds or fails on the way: no file is deleted unless it holds a generated resource;
      no file changes unless it holds the deployment, the rollout of its name or the routed VirtualService, and then its
      key and metadata stay; every new file holds a generated resource. */
  lemma StrategyOwnership(dir: Dir, keys: set<Key>, s: Strategy, f: string)
    requires Tidy(dir, keys) && CoversAt(keys, dir, s)
    ensures var files := After(dir, s);
            && (f in dir && f !in files ==> IsYaml(f) && dir[f].Resource? && Generated(dir[f].doc))
            && (f in dir && f in files && files[f] != dir[f] ==>
                  && MainDeployment(Yamls(dir)).Some?
                  && dir[f].Resource? && files[f].Resource?
                  && files[f].doc.Key() == dir[f].doc.Key() && files[f].doc.meta == dir[f].doc.meta
                  && dir[f].doc.Key() in Targets(MainDeployment(Yamls(dir)).value, s))
            && (f in files && f !in dir ==> IsYaml(f) && files[f].Resource? && Generated(files[f].doc))
  {
    TidyKept(dir, keys, s);
    if MainDeployment(Yamls(dir)).Some? {
      FreshIsFree(dir, keys, MainDeployment(Yamls(dir)).value, s);
      Ownership(dir, MainDeployment(Yamls(dir)).value, s, After(dir, s), f);
      if f in After(dir, s) && f !in dir {
        FileNameIsYaml(After(dir, s)[f].doc.Key());
      }
    }
  }

  /** A create leaves every file as it was exactly when its own file is free; otherwise it overwrites whatever that file
      held. */
  lemma CreateOverwrites(dir: Dir, o: Object)
    requires CreateEffect(OBJECTS, Yamls(dir), o).error.None?
    ensures var after := Perform(dir, CreateEffect(OBJECTS, Yamls(dir), o).writes);
            && after == dir[FileName(o.Key()) := Resource(o.Settled())]
            && ((forall f :: f in dir ==> after[f] == dir[f]) <==> FileName(o.Key()) !in dir)
  {
    var f := FileName(o.Key());
    PerformSingle(dir, Put(f, o.Settled()));
    FileNameIsYaml(o.Key());
    if f in dir {
      assert !Holds(OBJECTS, Yamls(dir), f, o.Key());
    }
  }

  // ---- The deployment ----

  ghost predicate MainAt(dir: Dir, f: string) {
    HoldsDeployment(dir, f) && forall g :: HoldsDeployment(dir, g) ==> g == f
  }

  lemma MainFile(dir: Dir, dep: Object) returns (f: string)
    requires MainDeployment(Yamls(dir)) == Some(dep)
    ensures MainAt(dir, f) && dir[f].doc == dep
  {
    f :| HoldsDeployment(Yamls(dir), f) && forall g :: HoldsDeployment(Yamls(dir), g) ==> g == f;
    forall g | HoldsDeployment(dir, g)
      ensures g == f
    {
      assert HoldsDeployment(Yamls(dir), g);
    }
  }

  lemma MainFrom(dir: Dir, f: string)
    requires MainAt(dir, f)
    ensures MainDeployment(Yamls(dir)) == Some(dir[f].doc)
  {
    assert HoldsDeployment(Yamls(dir), f);
    forall g | HoldsDeployment(Yamls(dir), g)
      ensures g == f
    {
      assert HoldsDeployment(dir, g);
    }
  }

  /** Canary and blue-green settings leave the deployment alone. */
  lemma MainKept(dir: Dir, dep: Object, s: Strategy, files: Dir)
    requires UniqueKeys(OBJECTS, dir) && Free(dir, dep, s)
    requires MainDeployment(Yamls(dir)) == Some(dep) && !Removes(s) && Outcome(dir, dep, s, files)
    ensures MainDeployment(Yamls(files)) == Some(dep)
  {
    var f := MainFile(dir, dep);
    forall g
      ensures HoldsDeployment(files, g) <==> HoldsDeployment(dir, g)
      ensures HoldsDeployment(dir, g) ==> files[g] == dir[g]
    {
      Ownership(dir, dep, s, files, g);
    }
    assert HoldsDeployment(files, f);
    MainFrom(files, f);
  }

  // ---- Undoing ----

  /** Everything of the original directory but its index is still there, and everything else was generated. */
  ghost predicate Restorable(original: Dir, keys: set<Key>, dir: Dir) {
    && Tidy(dir, keys)
    && (forall f :: f in original && f != KUSTOMIZATION_FILE ==> f in dir && dir[f] == original[f])
    && (forall f :: f in dir && f !in original && f != KUSTOMIZATION_FILE ==>
          IsYaml(f) && dir[f].Resource? && Generated(dir[f].doc))
    && (KUSTOMIZATION_FILE in dir ==> !dir[KUSTOMIZATION_FILE].Resource?)
  }

  /** The directory an application starts from: nothing generated in it, no rollout of the deployment's name. */
  ghost predicate Pristine(original: Dir, keys: set<Key>, dep: Object) {
    && Tidy(original, keys)
    && MainDeployment(Yamls(original)) == Some(dep)
    && GeneratedFiles(original) == {}
    && !Present(OBJECTS, original, RolloutKey(dep))
    && (KUSTOMIZATION_FILE in original ==> !original[KUSTOMIZATION_FILE].Resource?)
  }

  /** A canary or blue-green setting that creates some of the keys and does not route through a VirtualService of the
      original. */
  ghost predicate Temporary(original: Dir, keys: set<Key>, dep: Object, s: Strategy) {
    && !Removes(s) && Covers(keys, dep, s)
    && (RouteKey(dep, s).Some? ==> !Present(OBJECTS, original, RouteKey(dep, s).value))
  }

  /** One update through the pipeline: on success the index is brought up to date. */
  ghost function Set(l: ReadDir, dir: Dir, s: Strategy): Dir {
    if ErrorOf(dir, s).None? then Kustomized(l, After(dir, s)) else After(dir, s)
  }

  ghost function SetAll(l: ReadDir, dir: Dir, ss: seq<Strategy>): Dir {
    if ss == [] then dir else Set(l, SetAll(l, dir, ss[..|ss| - 1]), ss[|ss| - 1])
  }

  lemma IndexIsNoTarget(k: Key)
    ensures FileName(k) != KUSTOMIZATION_FILE
  {
    assert '-' !in KUSTOMIZATION_FILE;
    assert FileName(k)[|KindName(k.kind)|] == '-';
    assert '-' in FileName(k);
  }

  /** The index is not a resource, so rewriting it changes neither keys nor names. */
  lemma KustomizeKeepsTidy(dir: Dir, keys: set<Key>, k: KustomizeFile)
    requires Tidy(dir, keys) && (KUSTOMIZATION_FILE in dir ==> !dir[KUSTOMIZATION_FILE].Resource?)
    ensures var after := dir[KUSTOMIZATION_FILE := Kustomization(k)];
            Tidy(after, keys) && forall f, key :: Holds(OBJECTS, after, f, key) <==> Holds(OBJECTS, dir, f, key)
  {
    var after := dir[KUSTOMIZATION_FILE := Kustomization(k)];
    assert forall f, key :: Holds(OBJECTS, after, f, key) <==> Holds(OBJECTS, dir, f, key);
    forall key: Key | key in keys && key.kind in GENERATED_KINDS && !Owned(after, key) && FileName(key) in after
      ensures Holds(OBJECTS, after, FileName(key), key)
    {
      IndexIsNoTarget(key);
    }
  }

  lemma IndexKeepsMain(dir: Dir, k: KustomizeFile)
    requires KUSTOMIZATION_FILE in dir ==> !dir[KUSTOMIZATION_FILE].Resource?
    requires MainDeployment(Yamls(dir)).Some?
    ensures MainDeployment(Yamls(dir[KUSTOMIZATION_FILE := Kustomization(k)])) == MainDeployment(Yamls(dir))
  {
    var after := dir[KUSTOMIZATION_FILE := Kustomization(k)];
    var f := MainFile(dir, MainDeployment(Yamls(dir)).value);
    assert forall g :: HoldsDeployment(after, g) <==> HoldsDeployment(dir, g);
    MainFrom(after, f);
  }

  lemma IndexKeepsRestorable(original: Dir, keys: set<Key>, dir: Dir, k: KustomizeFile)
    requires Restorable(original, keys, dir)
    ensures Restorable(original, keys, dir[KUSTOMIZATION_FILE := Kustomization(k)])
  {
    KustomizeKeepsTidy(dir, keys, k);
  }

  lemma KustomizeKeeps(l: ReadDir, original: Dir, keys: set<Key>, dir: Dir)
    requires Restorable(original, keys, dir)
    ensures Restorable(original, keys, Kustomized(l, dir))
    ensures MainDeployment(Yamls(dir)).Some? ==>
              MainDeployment(Yamls(Kustomized(l, dir))) == MainDeployment(Yamls(dir))
  {
    if |dir| > 0 && Indexable(dir) {
      var k := Kustomized(l, dir)[KUSTOMIZATION_FILE].kustomization;
      assert Kustomized(l, dir) == dir[KUSTOMIZATION_FILE := Kustomization(k)];
      IndexKeepsRestorable(original, keys, dir, k);
      if MainDeployment(Yamls(dir)).Some? {
        IndexKeepsMain(dir, k);
      }
    }
  }

  /** No original file holds what a temporary setting may rewrite. */
  lemma NoTarget(original: Dir, keys: set<Key>, dep: Object, s: Strategy, f: string)
    requires Pristine(original, keys, dep) && Temporary(original, keys, dep, s)
    requires f in original && IsYaml(f) && original[f].Resource?
    ensures original[f].doc.Key() !in Targets(dep, s)
  {
    assert Holds(OBJECTS, original, f, original[f].doc.Key());
  }

  lemma OriginalKept(original: Dir, keys: set<Key>, dep: Object, dir: Dir, s: Strategy, files: Dir, f: string)
    requires Pristine(original, keys, dep) && Restorable(original, keys, dir)
    requires Temporary(original, keys, dep, s) && Outcome(dir, dep, s, files)
    requires f in original && f != KUSTOMIZATION_FILE
    ensures f in files && files[f] == original[f]
  {
    FreshIsFree(dir, keys, dep, s);
    Ownership(dir, dep, s, files, f);
    if IsYaml(f) && original[f].Resource? {
      NoTarget(original, keys, dep, s, f);
    }
  }

  lemma NewGenerated(original: Dir, keys: set<Key>, dep: Object, dir: Dir, s: Strategy, files: Dir, f: string)
    requires Restorable(original, keys, dir) && Covers(keys, dep, s) && Outcome(dir, dep, s, files)
    requires f in files && f !in original
    ensures f != KUSTOMIZATION_FILE ==> IsYaml(f) && files[f].Resource? && Generated(files[f].doc)
  {
  }

  lemma IndexKept(original: Dir, keys: set<Key>, dep: Object, dir: Dir, s: Strategy, files: Dir)
    requires Restorable(original, keys, dir) && Covers(keys, dep, s) && Outcome(dir, dep, s, files)
    ensures KUSTOMIZATION_FILE in files ==> !files[KUSTOMIZATION_FILE].Resource?
  {
    FreshIsFree(dir, keys, dep, s);
    Ownership(dir, dep, s, files, KUSTOMIZATION_FILE);
    if KUSTOMIZATION_FILE in files && KUSTOMIZATION_FILE !in dir {
      IndexIsNoTarget(files[KUSTOMIZATION_FILE].doc.Key());
    }
  }

  lemma SetKeeps(original: Dir, keys: set<Key>, dep: Object, dir: Dir, s: Strategy)
    requires Pristine(original, keys, dep) && Restorable(original, keys, dir) && MainDeployment(Yamls(dir)) == Some(dep)
    requires Temporary(original, keys, dep, s)
    ensures Restorable(original, keys, After(dir, s)) && MainDeployment(Yamls(After(dir, s))) == Some(dep)
  {
    TidyKept(dir, keys, s);
    var files := After(dir, s);
    FreshIsFree(dir, keys, dep, s);
    MainKept(dir, dep, s, files);
    IndexKept(original, keys, dep, dir, s, files);
    forall f
      ensures f in original && f != KUSTOMIZATION_FILE ==> f in files && files[f] == original[f]
      ensures f in files && f !in original && f != KUSTOMIZATION_FILE ==>
                IsYaml(f) && files[f].Resource? && Generated(files[f].doc)
    {
      if f in original && f != KUSTOMIZATION_FILE {
        OriginalKept(original, keys, dep, dir, s, files, f);
      } else if f in files && f !in original {
        NewGenerated(original, keys, dep, dir, s, files, f);
      }
    }
  }

  lemma UpdateKeeps(l: ReadDir, original: Dir, keys: set<Key>, dep: Object, dir: Dir, s: Strategy)
    requires Pristine(original, keys, dep) && Temporary(original, keys, dep, s)
    requires Restorable(original, keys, dir) && MainDeployment(Yamls(dir)) == Some(dep)
    ensures Restorable(original, keys, Set(l, dir, s)) && MainDeployment(Yamls(Set(l, dir, s))) == Some(dep)
  {
    SetKeeps(original, keys, dep, dir, s);
    KustomizeKeeps(l, original, keys, After(dir, s));
  }

  lemma {:induction false} RunKeeps(l: ReadDir, original: Dir, keys: set<Key>, dep: Object, ss: seq<Strategy>)
    requires Pristine(original, keys, dep) && forall s :: s in ss ==> Temporary(original, keys, dep, s)
    ensures var dir := SetAll(l, original, ss);
            Restorable(original, keys, dir) && MainDeployment(Yamls(dir)) == Some(dep)
    decreases |ss|
  {
    if ss != [] {
      var less, last := ss[..|ss| - 1], ss[|ss| - 1];
      assert last in ss && forall s :: s in less ==> s in ss;
      RunKeeps(l, original, keys, dep, less);
      UpdateKeeps(l, original, keys, dep, SetAll(l, original, less), last);
    }
  }

  /** What a setting that removes leaves: the generated files are gone, and the deployment is rewritten if its type
      changes. */
  lemma CleanAfter(dir: Dir, dep: Object, s: Strategy, f: string)
    requires UniqueKeys(OBJECTS, dir) && MainAt(dir, f) && dir[f].doc == dep && Removes(s)
    ensures ErrorOf(dir, s).None?
    ensures var rewritten := (s.stype.RollingUpdate? || s.stype.Recreate?) &&
                             dep.body.deployment.strategy.stype != s.stype;
            After(dir, s) ==
            (if rewritten then dir[f := Resource(WithStrategy(dep, s).Settled())] else dir) - GeneratedFiles(dir)
  {
    MainFrom(dir, f);
    var snap := Yamls(dir);
    var names := Listing(GeneratedFiles(snap));
    var first := DeploymentEffect(snap, dep, s);
    assert Holds(OBJECTS, snap, f, dep.Key());
    SnapshotWhere(OBJECTS, dir, dep.Key());
    assert Holds(OBJECTS, dir, f, dep.Key());
    assert WithStrategy(dep, s).Key() == dep.Key();
    PerformSingle(dir, Put(f, WithStrategy(dep, s).Settled()));
    var mid := Perform(dir, first.writes);
    PerformAppend(dir, first.writes, Removals(names, snap));
    RemovalsPerform(mid, snap, names);
    assert (set g | g in names) == GeneratedFiles(snap) == GeneratedFiles(dir);
  }

  /** In a restorable directory exactly the files that are not original are generated. */
  lemma RestorableGenerated(original: Dir, keys: set<Key>, dep: Object, dir: Dir)
    requires Pristine(original, keys, dep) && Restorable(original, keys, dir)
    ensures (dir - GeneratedFiles(dir)) - {KUSTOMIZATION_FILE} == original - {KUSTOMIZATION_FILE}
  {
  }

  lemma PutBesides(dir: Dir, gone: set<string>, original: Dir, f: string, file: File<Object>)
    requires (dir - gone) - {KUSTOMIZATION_FILE} == original - {KUSTOMIZATION_FILE} && f !in gone
    ensures (dir[f := file] - gone) - {KUSTOMIZATION_FILE} == original[f := file] - {KUSTOMIZATION_FILE}
  {
    assert (dir[f := file] - gone) == (dir - gone)[f := file];
    var a, b := (dir - gone)[f := file] - {KUSTOMIZATION_FILE}, original[f := file] - {KUSTOMIZATION_FILE};
    forall g
      ensures g in a <==> g in b
      ensures g in a ==> a[g] == b[g]
    {
      assert g in (dir - gone) - {KUSTOMIZATION_FILE} <==> g in original - {KUSTOMIZATION_FILE};
    }
  }

  lemma UndoStep(original: Dir, keys: set<Key>, dep: Object, dir: Dir, s: Strategy, f: string)
    requires Pristine(original, keys, dep) && Restorable(original, keys, dir) && MainDeployment(Yamls(dir)) == Some(dep)
    requires Removes(s) && MainAt(original, f) && original[f].doc == dep
    ensures ErrorOf(dir, s).None?
    ensures var rewritten := (s.stype.RollingUpdate? || s.stype.Recreate?) &&
                             dep.body.deployment.strategy.stype != s.stype;
            After(dir, s) - {KUSTOMIZATION_FILE} ==
            (if rewritten then original[f := Resource(WithStrategy(dep, s).Settled())] else original)
              - {KUSTOMIZATION_FILE}
  {
    var main := MainFile(dir, dep);
    assert HoldsDeployment(dir, f);
    CleanAfter(dir, dep, s, f);
    RestorableGenerated(original, keys, dep, dir);
    assert f !in GeneratedFiles(original);
    assert f !in GeneratedFiles(dir);
    PutBesides(dir, GeneratedFiles(dir), original, f, Resource(WithStrategy(dep, s).Settled()));
  }

  /** Undo: from a directory with nothing generated in it, any sequence of canary and blue-green settings, failed ones
      included, followed by a rolling-update or recreate setting restores every file, except for the index and, if its
      strategy type had to change, the deployment, of which nothing but the strategy and the status changes. */
  lemma Undo(l: ReadDir, original: Dir, keys: set<Key>, dep: Object, ss: seq<Strategy>, s: Strategy, f: string)
    requires Pristine(original, keys, dep) && forall t :: t in ss ==> Temporary(original, keys, dep, t)
    requires s.stype.RollingUpdate? || s.stype.Recreate?
    requires MainAt(original, f)
    ensures var dir := SetAll(l, original, ss);
            && ErrorOf(dir, s).None?
            && Set(l, dir, s) - {KUSTOMIZATION_FILE} ==
               (if dep.body.deployment.strategy.stype != s.stype
                then original[f := Resource(WithStrategy(dep, s).Settled())] else original) - {KUSTOMIZATION_FILE}
    ensures f in Set(l, SetAll(l, original, ss), s) && Set(l, SetAll(l, original, ss), s)[f].Resource?
    ensures var main := Set(l, SetAll(l, original, ss), s)[f].doc;
            && SameButStrategy(dep, main)
            && main.body.deployment.strategy.stype == s.stype
            && (main.body.deployment.strategy == dep.body.deployment.strategy ||
                main.body.deployment.strategy.rolling == if s.stype.RollingUpdate? then s.rolling else None)
  {
    UndoFiles(l, original, keys, dep, ss, s, f);
    MainFrom(original, f);
    var after := Set(l, SetAll(l, original, ss), s);
    assert f in after - {KUSTOMIZATION_FILE} && f in after;
    UndoneDeployment(dep, s);
  }

  lemma UndoneDeployment(dep: Object, s: Strategy)
    requires dep.body.DeploymentBody? && (s.stype.RollingUpdate? || s.stype.Recreate?)
    ensures SameButStrategy(dep, dep) && SameButStrategy(dep, WithStrategy(dep, s).Settled())
    ensures var now := WithStrategy(dep, s).Settled().body.deployment.strategy;
            now.stype == s.stype && now.rolling == if s.stype.RollingUpdate? then s.rolling else None
  {
  }

  lemma UndoFiles(l: ReadDir, original: Dir, keys: set<Key>, dep: Object, ss: seq<Strategy>, s: Strategy, f: string)
    requires Pristine(original, keys, dep) && forall t :: t in ss ==> Temporary(original, keys, dep, t)
    requires s.stype.RollingUpdate? || s.stype.Recreate?
    requires MainAt(original, f)
    ensures var dir := SetAll(l, original, ss);
            && ErrorOf(dir, s).None?
            && Set(l, dir, s) - {KUSTOMIZATION_FILE} ==
               (if dep.body.deployment.strategy.stype != s.stype
                then original[f := Resource(WithStrategy(dep, s).Settled())] else original) - {KUSTOMIZATION_FILE}
  {
    RunKeeps(l, original, keys, dep, ss);
    MainFrom(original, f);
    var dir := SetAll(l, original, ss);
    UndoStep(original, keys, dep, dir, s, f);
    IndexOnly(l, After(dir, s));
  }

  lemma IndexOnly(l: ReadDir, dir: Dir)
    ensures Kustomized(l, dir) - {KUSTOMIZATION_FILE} == dir - {KUSTOMIZATION_FILE}
  {
  }
}
