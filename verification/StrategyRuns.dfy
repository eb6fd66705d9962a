/** Ownership over whole runs of settings: canary, blue-green and removing ones in any order, failed ones included. */
module StrategyRuns {
  import opened Wrappers
  import opened ManifestStore
  import opened Workloads
  import opened StrategySpec
  import opened StrategyWrites
  import opened Pipeline
  import opened StrategyProofs
  import opened StrategyRoundTrip

  /** A directory that settings can be made in; it may hold anything else. */
  ghost predicate Settable(dir: Dir, keys: set<Key>) {
    Tidy(dir, keys) && (KUSTOMIZATION_FILE in dir ==> !dir[KUSTOMIZATION_FILE].Resource?)
  }

  /** The deployment is the one it was but for its strategy, or there is none any more. */
  ghost predicate SameMain(dir: Dir, files: Dir) {
    var before, after := MainDeployment(Yamls(dir)), MainDeployment(Yamls(files));
    after.Some? ==> before.Some? && SameButStrategy(before.value, after.value)
  }

  lemma MainStays(dir: Dir, keys: set<Key>, s: Strategy)
    requires Settable(dir, keys) && CoversAt(keys, dir, s)
    ensures SameMain(dir, After(dir, s))
  {
    TidyKept(dir, keys, s);
    match MainDeployment(Yamls(dir))
    case None =>
    case Some(dep) =>
      FreshIsFree(dir, keys, dep, s);
      if Removes(s) {
        var f := MainFile(dir, dep);
        MainAfterClean(dir, dep, s, f);
      } else {
        MainKept(dir, dep, s, After(dir, s));
      }
  }

  lemma StaysSettable(l: ReadDir, dir: Dir, keys: set<Key>, s: Strategy)
    requires Settable(dir, keys) && CoversAt(keys, dir, s)
    ensures Settable(Set(l, dir, s), keys) && SameMain(dir, Set(l, dir, s))
  {
    TidyKept(dir, keys, s);
    MainStays(dir, keys, s);
    if MainDeployment(Yamls(dir)).Some? {
      IndexStays(dir, keys, MainDeployment(Yamls(dir)).value, s, After(dir, s));
    }
    KustomizeTransparent(l, After(dir, s), keys);
  }

  /** Names and targets depend on the deployment's metadata only. */
  lemma SameTargets(dep: Object, other: Object, s: Strategy)
    requires dep.meta == other.meta && dep.body.DeploymentBody? && other.body.DeploymentBody?
    ensures Targets(dep, s) == Targets(other, s)
  {
  }

  lemma CoversStay(keys: set<Key>, dir: Dir, mid: Dir, s: Strategy)
    requires CoversAt(keys, dir, s) && SameMain(dir, mid)
    ensures CoversAt(keys, mid, s)
  {
    if MainDeployment(Yamls(mid)).Some? {
      SameCovers(keys, MainDeployment(Yamls(dir)).value, MainDeployment(Yamls(mid)).value, s);
    }
  }

  /** The file holds a resource that was generated for a rollout. */
  ghost predicate GeneratedAt(dir: Dir, f: string) {
    f in dir && IsYaml(f) && dir[f].Resource? && Generated(dir[f].doc)
  }

  /** One of the settings may rewrite the resource. */
  ghost predicate Targeted(dir: Dir, ss: seq<Strategy>, k: Key) {
    MainDeployment(Yamls(dir)).Some? && exists s :: s in ss && k in Targets(MainDeployment(Yamls(dir)).value, s)
  }

  /** What a run may do to one file. A file that holds no generated resource is still there, and changes only if it
      holds a resource that one of the settings targets, which keeps its key and metadata; a file that is new holds a
      generated resource. */
  ghost predicate Respected(dir: Dir, ss: seq<Strategy>, files: Dir, f: string) {
    && (f in dir && !GeneratedAt(dir, f) ==>
          f in files &&
          (files[f] == dir[f] ||
           (&& dir[f].Resource? && files[f].Resource?
            && files[f].doc.Key() == dir[f].doc.Key() && files[f].doc.meta == dir[f].doc.meta
            && Targeted(dir, ss, dir[f].doc.Key()))))
    && (f !in dir && f in files ==> GeneratedAt(files, f))
  }

  lemma TargetedMore(dir: Dir, mid: Dir, ss: seq<Strategy>, last: Strategy, k: Key)
    requires SameMain(dir, mid)
    ensures Targeted(dir, ss, k) ==> Targeted(dir, ss + [last], k)
    ensures MainDeployment(Yamls(mid)).Some? && k in Targets(MainDeployment(Yamls(mid)).value, last) ==>
              Targeted(dir, ss + [last], k)
  {
    if MainDeployment(Yamls(mid)).Some? {
      SameTargets(MainDeployment(Yamls(dir)).value, MainDeployment(Yamls(mid)).value, last);
      assert last in ss + [last];
    }
    if s :| s in ss && MainDeployment(Yamls(dir)).Some? && k in Targets(MainDeployment(Yamls(dir)).value, s) {
      assert s in ss + [last];
    }
  }

  /** One more setting, before the index is brought up to date. */
  lemma RespectedStep(dir: Dir, keys: set<Key>, ss: seq<Strategy>, mid: Dir, last: Strategy, f: string)
    requires Respected(dir, ss, mid, f) && SameMain(dir, mid)
    requires Tidy(mid, keys) && CoversAt(keys, mid, last)
    ensures Respected(dir, ss + [last], After(mid, last), f)
  {
    StrategyOwnership(mid, keys, last, f);
    if f in dir && !GeneratedAt(dir, f) && dir[f].Resource? {
      TargetedMore(dir, mid, ss, last, dir[f].doc.Key());
    }
  }

  /** Ownership over whole runs: whatever settings are made, in any order, no file that is not generated is ever
      deleted; none changes unless it holds a target of one of the settings, and that keeps its key and metadata; and
      whatever is new is generated. Only the index is free to change. */
  lemma {:induction false} RunOwnership(l: ReadDir, dir: Dir, keys: set<Key>, ss: seq<Strategy>, f: string)
    requires Settable(dir, keys) && f != KUSTOMIZATION_FILE && forall s :: s in ss ==> CoversAt(keys, dir, s)
    ensures Respected(dir, ss, SetAll(l, dir, ss), f)
    ensures Settable(SetAll(l, dir, ss), keys) && SameMain(dir, SetAll(l, dir, ss))
    decreases |ss|
  {
    if ss != [] {
      var less, last := ss[..|ss| - 1], ss[|ss| - 1];
      assert ss == less + [last];
      RunOwnership(l, dir, keys, less, f);
      var mid := SetAll(l, dir, less);
      CoversStay(keys, dir, mid, last);
      RespectedStep(dir, keys, less, mid, last, f);
      IndexAside(l, After(mid, last), f);
      StaysSettable(l, mid, keys, last);
    }
  }

  /** Along any run the deployment stays what it was: replicas, selector, pod template and everything else but its
      strategy and its status. */
  lemma RunKeepsDeployment(l: ReadDir, dir: Dir, keys: set<Key>, ss: seq<Strategy>)
    requires Ready(dir, keys) && forall s :: s in ss ==> CoversAt(keys, dir, s)
    ensures MainDeployment(Yamls(SetAll(l, dir, ss))).Some?
    ensures SameButStrategy(MainDeployment(Yamls(dir)).value, MainDeployment(Yamls(SetAll(l, dir, ss))).value)
  {
    RunStaysReady(l, dir, keys, ss);
    RunOwnership(l, dir, keys, ss, "");
  }

  /** And the index keeps whatever it says beside the list of resources. */
  lemma {:induction false} RunKeepsIndex(l: ReadDir, dir: Dir, keys: set<Key>, ss: seq<Strategy>)
    requires Settable(dir, keys) && Readable(dir) && forall s :: s in ss ==> CoversAt(keys, dir, s)
    ensures var after := SetAll(l, dir, ss);
            && Readable(after)
            && var j, k := dir[KUSTOMIZATION_FILE].kustomization, after[KUSTOMIZATION_FILE].kustomization;
               && k.rest == j.rest
               && (j.apiVersion != "" ==> k.apiVersion == j.apiVersion) && (j.kind != "" ==> k.kind == j.kind)
    decreases |ss|
  {
    if ss != [] {
      var less, last := ss[..|ss| - 1], ss[|ss| - 1];
      assert last in ss && forall s :: s in less ==> s in ss;
      RunKeepsIndex(l, dir, keys, less);
      RunOwnership(l, dir, keys, less, "");
      var mid := SetAll(l, dir, less);
      CoversStay(keys, dir, mid, last);
      IndexUntouched(mid, keys, last);
      KustomizeCarries(l, After(mid, last));
    }
  }

  /** A setting itself leaves the index alone. */
  lemma IndexUntouched(dir: Dir, keys: set<Key>, s: Strategy)
    requires Settable(dir, keys) && Readable(dir) && CoversAt(keys, dir, s)
    ensures KUSTOMIZATION_FILE in After(dir, s)
    ensures After(dir, s)[KUSTOMIZATION_FILE] == dir[KUSTOMIZATION_FILE]
  {
    StrategyOwnership(dir, keys, s, KUSTOMIZATION_FILE);
  }

  lemma IndexAside(l: ReadDir, dir: Dir, f: string)
    requires f != KUSTOMIZATION_FILE
    ensures f in Kustomized(l, dir) <==> f in dir
    ensures f in dir ==> Kustomized(l, dir)[f] == dir[f]
  {
  }
}
