/** Reading a strategy back after setting it, once and over whole runs. */
module StrategyRoundTrip {
  import opened Wrappers
  import opened ManifestStore
  import opened Workloads
  import opened StrategySpec
  import opened StrategyWrites
  import opened StoreRefinement
  import opened Pipeline
  import opened StrategyProofs

  // ---- Reading back ----

  /** The strategy the rollout carries after a canary or blue-green setting. */
  function Wanted(dep: Object, s: Strategy): RolloutStrategy {
    if s.stype.Canary? then RolloutStrategy(Some(CanaryOf(dep, s).ToCanaryStrategy()), None)
    else RolloutStrategy(None, Some(BlueGreenOf(dep, s)))
  }

  /** What comes before the rollout itself. */
  ghost function Preparation(snap: Snapshot, dep: Object, s: Strategy): Effect<Object>
    requires dep.body.DeploymentBody?
  {
    if s.stype.Canary? then CanaryEffect(snap, dep, if s.canary.Some? then s.canary.value else EMPTY_CANARY)
    else BlueGreenEffect(snap, dep, if s.blueGreen.Some? then s.blueGreen.value else EMPTY_BLUE_GREEN)
  }

  lemma TemporaryEffect(snap: Snapshot, dep: Object, s: Strategy)
    requires MainDeployment(snap) == Some(dep) && !Removes(s)
    ensures StrategyEffect(snap, s) ==
            Then(Preparation(snap, dep, s), EnsureRolloutEffect(snap, dep, Wanted(dep, s)))
  {
    var r := RolloutEffect(snap, dep, s);
    assert [] + r.writes == r.writes;
  }

  /** A rollout that setting the strategy again would write as it is. */
  ghost predicate Steady(dep: Object, rs: RolloutStrategy, r: Object)
    requires dep.body.DeploymentBody?
  {
    && r.Key() == RolloutKey(dep) && r.body.RolloutBody?
    && r.body.rollout.strategy == rs
    && forall replicas :: WithRollout(r, NewRollout(dep, rs, replicas)).Settled() == r
  }

  /** The rollout is written once, under its key, with the wanted strategy. */
  lemma RolloutWrite(snap: Snapshot, dep: Object, rs: RolloutStrategy)
    requires dep.body.DeploymentBody? && EnsureRolloutEffect(snap, dep, rs).error.None?
    ensures var ws := EnsureRolloutEffect(snap, dep, rs).writes;
            |ws| == 1 && ws[0].Put? && Steady(dep, rs, ws[0].doc)
  {
  }

  lemma RolloutRead(dir: Dir, dep: Object, s: Strategy) returns (r: Object)
    requires UniqueKeys(OBJECTS, dir) && Free(dir, dep, s)
    requires MainDeployment(Yamls(dir)) == Some(dep) && !Removes(s) && ErrorOf(dir, s).None?
    ensures Read(OBJECTS, After(dir, s), RolloutKey(dep)) == Some(r) && Steady(dep, Wanted(dep, s), r)
  {
    var snap := Yamls(dir);
    var ws := StrategyEffect(snap, s).writes;
    TemporaryEffect(snap, dep, s);
    RolloutWrite(snap, dep, Wanted(dep, s));
    StrategyLawful(dir, dep, s);
    ReadLastPut(dir, dep, s, ws);
    r := ws[|ws| - 1].doc;
  }

  lemma ReadWithoutGenerated(dir: Dir, k: Key)
    requires UniqueKeys(OBJECTS, dir)
    ensures var before := Read(OBJECTS, dir, k);
            Read(OBJECTS, dir - GeneratedFiles(dir), k) ==
            if before.Some? && Generated(before.value) then None else before
  {
    var files := dir - GeneratedFiles(dir);
    var w := Where(OBJECTS, dir, k);
    if w.Some? && !Generated(dir[w.value].doc) {
      assert Holds(OBJECTS, files, w.value, k);
    }
    if Present(OBJECTS, files, k) {
      var g := Where(OBJECTS, files, k).value;
      assert Holds(OBJECTS, dir, g, k);
    }
  }

  /** Rewriting a file under its own key does not touch another key. */
  lemma PutElsewhere(dir: Dir, f: string, o: Object, k: Key)
    requires UniqueKeys(OBJECTS, dir) && Holds(OBJECTS, dir, f, o.Key()) && o.Key() != k
    ensures Read(OBJECTS, dir[f := Resource(o)], k) == Read(OBJECTS, dir, k)
  {
    SameRead(OBJECTS, dir, dir[f := Resource(o)], k);
  }

  lemma ReadRewritten(dir: Dir, f: string, o: Object, k: Key)
    requires UniqueKeys(OBJECTS, dir) && Holds(OBJECTS, dir, f, o.Key()) && o.Key() != k
    ensures Read(OBJECTS, dir[f := Resource(o)] - GeneratedFiles(dir), k) == Read(OBJECTS, dir - GeneratedFiles(dir), k)
  {
    var gone := GeneratedFiles(dir);
    var kept := dir - gone;
    assert forall g, key :: Holds(OBJECTS, kept, g, key) ==> Holds(OBJECTS, dir, g, key);
    assert UniqueKeys(OBJECTS, kept);
    if f in gone {
      assert dir[f := Resource(o)] - gone == kept;
    } else {
      assert dir[f := Resource(o)] - gone == kept[f := Resource(o)];
      assert Holds(OBJECTS, kept, f, o.Key());
      PutElsewhere(kept, f, o, k);
    }
  }

  /** After a setting that removes, the rollout is there exactly when it was and was not generated. */
  lemma RolloutAfterClean(dir: Dir, dep: Object, s: Strategy, f: string)
    requires UniqueKeys(OBJECTS, dir) && MainAt(dir, f) && dir[f].doc == dep && Removes(s)
    ensures var before := Read(OBJECTS, dir, RolloutKey(dep));
            Read(OBJECTS, After(dir, s), RolloutKey(dep)) ==
            if before.Some? && Generated(before.value) then None else before
  {
    var put := WithStrategy(dep, s).Settled();
    CleanAfter(dir, dep, s, f);
    ReadWithoutGenerated(dir, RolloutKey(dep));
    assert Holds(OBJECTS, dir, f, put.Key());
    ReadRewritten(dir, f, put, RolloutKey(dep));
  }

  lemma MainAfterClean(dir: Dir, dep: Object, s: Strategy, f: string)
    requires UniqueKeys(OBJECTS, dir) && MainAt(dir, f) && dir[f].doc == dep && Removes(s)
    ensures MainDeployment(Yamls(After(dir, s))) ==
            if Generated(dep) then None
            else if (s.stype.RollingUpdate? || s.stype.Recreate?) && dep.body.deployment.strategy.stype != s.stype
            then Some(WithStrategy(dep, s).Settled()) else Some(dep)
  {
    var files := After(dir, s);
    CleanAfter(dir, dep, s, f);
    if Generated(dep) {
      forall g
        ensures !HoldsDeployment(Yamls(files), g)
      {
        assert HoldsDeployment(Yamls(files), g) ==> HoldsDeployment(dir, g);
      }
    } else {
      assert forall g :: HoldsDeployment(files, g) ==> HoldsDeployment(dir, g);
      assert HoldsDeployment(files, f);
      MainFrom(files, f);
    }
  }

  /** What reading the strategy back should give. */
  function Expected(dep: Object, s: Strategy): Strategy
    requires dep.body.DeploymentBody?
  {
    if s.stype.Canary? then
      Strategy(Canary, Some(ExtendCanaryStrategy(CanaryOf(dep, s).ToCanaryStrategy())), None, None)
    else if s.stype.BlueGreen? then Strategy(BlueGreen, None, Some(BlueGreenOf(dep, s)), None)
    else if dep.body.deployment.strategy.stype == s.stype then
      Strategy(s.stype, None, None, dep.body.deployment.strategy.rolling)
    else Strategy(s.stype, None, None, if s.stype.RollingUpdate? then s.rolling else None)
  }

  lemma ParsedIs(dir: Dir)
    requires UniqueKeys(OBJECTS, dir)
    ensures ParseStrategy(Yamls(dir)) ==
            match MainDeployment(Yamls(dir))
            case None => None
            case Some(dep) => Some(ParsedFrom(dep, Read(OBJECTS, dir, RolloutKey(dep))))
  {
    match MainDeployment(Yamls(dir))
    case None =>
    case Some(dep) => SnapshotWhere(OBJECTS, dir, RolloutKey(dep));
  }

  lemma TemporaryParsed(dir: Dir, dep: Object, s: Strategy)
    requires UniqueKeys(OBJECTS, dir) && Free(dir, dep, s)
    requires MainDeployment(Yamls(dir)) == Some(dep) && !Removes(s) && ErrorOf(dir, s).None?
    ensures ParseStrategy(Yamls(After(dir, s))) == Some(Expected(dep, s))
  {
    SettingOutcome(dir, dep, s);
    MainKept(dir, dep, s, After(dir, s));
    var r := RolloutRead(dir, dep, s);
    ParsedIs(After(dir, s));
  }

  /** After a rolling-update or recreate setting the type reads back exactly when the deployment was not generated
      itself and no rollout of its name stays behind, that is, one the platform did not make. */
  lemma RemovedParsed(dir: Dir, dep: Object, s: Strategy)
    requires UniqueKeys(OBJECTS, dir) && MainDeployment(Yamls(dir)) == Some(dep)
    requires s.stype.RollingUpdate? || s.stype.Recreate?
    ensures ErrorOf(dir, s).None?
    ensures var parsed, rollout := ParseStrategy(Yamls(After(dir, s))), Read(OBJECTS, dir, RolloutKey(dep));
            && (parsed.Some? && parsed.value.stype == s.stype <==>
                !Generated(dep) && (rollout.Some? ==> Generated(rollout.value)))
            && (!Generated(dep) && (rollout.Some? ==> Generated(rollout.value)) ==> parsed == Some(Expected(dep, s)))
  {
    var f := MainFile(dir, dep);
    CleanAfter(dir, dep, s, f);
    RolloutAfterClean(dir, dep, s, f);
    MainAfterClean(dir, dep, s, f);
    SettingOutcome(dir, dep, s);
    ParsedWhen(After(dir, s), dep, s, Read(OBJECTS, dir, RolloutKey(dep)));
  }

  lemma ParsedWhen(files: Dir, dep: Object, s: Strategy, rollout: Option<Object>)
    requires UniqueKeys(OBJECTS, files) && dep.body.DeploymentBody? && (s.stype.RollingUpdate? || s.stype.Recreate?)
    requires MainDeployment(Yamls(files)) == if Generated(dep) then None else Some(Rewritten(dep, s))
    requires Read(OBJECTS, files, RolloutKey(dep)) ==
             if rollout.Some? && Generated(rollout.value) then None else rollout
    ensures var parsed := ParseStrategy(Yamls(files));
            && (parsed.Some? && parsed.value.stype == s.stype <==>
                !Generated(dep) && (rollout.Some? ==> Generated(rollout.value)))
            && (!Generated(dep) && (rollout.Some? ==> Generated(rollout.value)) ==> parsed == Some(Expected(dep, s)))
  {
    ParsedIs(files);
    ParsedType(dep, s, Read(OBJECTS, files, RolloutKey(dep)));
  }

  /** The deployment as it stands after a rolling-update or recreate setting. */
  function Rewritten(dep: Object, s: Strategy): Object
    requires dep.body.DeploymentBody?
  {
    if dep.body.deployment.strategy.stype != s.stype then WithStrategy(dep, s).Settled() else dep
  }

  lemma ParsedType(dep: Object, s: Strategy, rollout: Option<Object>)
    requires dep.body.DeploymentBody? && (s.stype.RollingUpdate? || s.stype.Recreate?)
    requires rollout.Some? ==> rollout.value.body.RolloutBody?
    ensures RolloutKey(Rewritten(dep, s)) == RolloutKey(dep)
    ensures ParsedFrom(Rewritten(dep, s), rollout).stype == s.stype <==> rollout.None?
    ensures rollout.None? ==> ParsedFrom(Rewritten(dep, s), rollout) == Expected(dep, s)
  {
  }

  /** A canary that reads back has at least two steps, the user's steps first. */
  lemma CanarySteps(dep: Object, s: Strategy)
    requires s.stype.Canary? && s.canary.Some? && dep.body.DeploymentBody?
    ensures var steps := Expected(dep, s).canary.value.steps;
            |steps| >= 2 && s.canary.value.steps <= steps
  {
  }

  /** The strategy asks for matches that live in the VirtualService only. */
  predicate AddsMatches(c: ExtendedCanaryStrategy) {
    c.trafficRouting.Some? && c.trafficRouting.value.istio.Some? &&
    var vs := c.trafficRouting.value.istio.value;
    vs.uri.Some? || vs.headers != map[] || vs.ignoreUriCase
  }

  lemma CanaryLossless(dep: Object, s: Strategy)
    requires s.stype.Canary? && dep.body.DeploymentBody?
    ensures Expected(dep, s).canary.value == CanaryOf(dep, s) <==> !AddsMatches(CanaryOf(dep, s))
  {
  }

  // ---- Whole runs ----

  /** A directory with a deployment the platform did not make, and no rollout of its name that it did not make. */
  ghost predicate Ready(dir: Dir, keys: set<Key>) {
    && Tidy(dir, keys)
    && (KUSTOMIZATION_FILE in dir ==> !dir[KUSTOMIZATION_FILE].Resource?)
    && MainDeployment(Yamls(dir)).Some?
    && var dep := MainDeployment(Yamls(dir)).value;
       !Generated(dep) && RolloutGenerated(dir, dep)
  }

  ghost predicate RolloutGenerated(dir: Dir, dep: Object) {
    var r := Read(OBJECTS, dir, RolloutKey(dep));
    r.Some? ==> Generated(r.value)
  }

  lemma RolloutStaysGenerated(dir: Dir, keys: set<Key>, dep: Object, s: Strategy, files: Dir)
    requires Tidy(dir, keys) && Covers(keys, dep, s) && UniqueKeys(OBJECTS, files) && Outcome(dir, dep, s, files)
    requires RolloutGenerated(dir, dep)
    ensures RolloutGenerated(files, dep)
  {
    var k := RolloutKey(dep);
    FreshIsFree(dir, keys, dep, s);
    if Present(OBJECTS, files, k) {
      var g := Where(OBJECTS, files, k).value;
      Ownership(dir, dep, s, files, g);
      if Holds(OBJECTS, dir, g, k) {
        assert Where(OBJECTS, dir, k) == Some(g);
      }
    }
  }

  lemma IndexStays(dir: Dir, keys: set<Key>, dep: Object, s: Strategy, files: Dir)
    requires Tidy(dir, keys) && Covers(keys, dep, s) && Outcome(dir, dep, s, files)
    requires KUSTOMIZATION_FILE in dir ==> !dir[KUSTOMIZATION_FILE].Resource?
    ensures KUSTOMIZATION_FILE in files ==> !files[KUSTOMIZATION_FILE].Resource?
  {
    FreshIsFree(dir, keys, dep, s);
    Ownership(dir, dep, s, files, KUSTOMIZATION_FILE);
    if KUSTOMIZATION_FILE in files && KUSTOMIZATION_FILE !in dir {
      IndexIsNoTarget(files[KUSTOMIZATION_FILE].doc.Key());
    }
  }

  /** Setting any strategy, successfully or not, keeps a directory ready, with the same rollout name. */
  lemma ReadyKept(dir: Dir, keys: set<Key>, s: Strategy)
    requires Ready(dir, keys) && CoversAt(keys, dir, s)
    ensures Ready(After(dir, s), keys)
    ensures MainDeployment(Yamls(After(dir, s))).value.meta == MainDeployment(Yamls(dir)).value.meta
  {
    var dep, files := MainDeployment(Yamls(dir)).value, After(dir, s);
    TidyKept(dir, keys, s);
    FreshIsFree(dir, keys, dep, s);
    IndexStays(dir, keys, dep, s, files);
    RolloutStaysGenerated(dir, keys, dep, s, files);
    if Removes(s) {
      var f := MainFile(dir, dep);
      MainAfterClean(dir, dep, s, f);
      assert RolloutKey(WithStrategy(dep, s).Settled()) == RolloutKey(dep);
    } else {
      MainKept(dir, dep, s, files);
    }
  }

  /** The index is no resource, so updating it changes nothing that is read. */
  lemma KustomizeTransparent(l: ReadDir, dir: Dir, keys: set<Key>)
    requires Tidy(dir, keys) && (KUSTOMIZATION_FILE in dir ==> !dir[KUSTOMIZATION_FILE].Resource?)
    ensures var after := Kustomized(l, dir);
            && Tidy(after, keys) && (KUSTOMIZATION_FILE in after ==> !after[KUSTOMIZATION_FILE].Resource?)
            && (forall k :: Read(OBJECTS, after, k) == Read(OBJECTS, dir, k))
            && MainDeployment(Yamls(after)) == MainDeployment(Yamls(dir))
            && ParseStrategy(Yamls(after)) == ParseStrategy(Yamls(dir))
  {
    var after := Kustomized(l, dir);
    if |dir| > 0 && Indexable(dir) {
      KustomizeKeepsTidy(dir, keys, after[KUSTOMIZATION_FILE].kustomization);
      forall k
        ensures Read(OBJECTS, after, k) == Read(OBJECTS, dir, k)
      {
        SameRead(OBJECTS, dir, after, k);
      }
      assert forall f :: HoldsDeployment(Yamls(after), f) <==> HoldsDeployment(Yamls(dir), f);
    }
    ParsedIs(dir);
    ParsedIs(after);
  }

  /** Set and read: after any successful setting of one of the four strategies, the strategy that is read back is the
      one set; and whatever is set, the directory stays ready for the next. */
  lemma SetReadsBack(l: ReadDir, dir: Dir, keys: set<Key>, s: Strategy)
    requires Ready(dir, keys) && CoversAt(keys, dir, s)
    ensures Ready(Set(l, dir, s), keys)
    ensures MainDeployment(Yamls(Set(l, dir, s))).value.meta == MainDeployment(Yamls(dir)).value.meta
    ensures ErrorOf(dir, s).None? && !s.stype.Unset? && !s.stype.OtherType? ==>
              ParseStrategy(Yamls(Set(l, dir, s))) == Some(Expected(MainDeployment(Yamls(dir)).value, s))
  {
    var dep := MainDeployment(Yamls(dir)).value;
    ReadyKept(dir, keys, s);
    KustomizeTransparent(l, After(dir, s), keys);
    if !s.stype.Unset? && !s.stype.OtherType? {
      if Removes(s) {
        RemovedParsed(dir, dep, s);
      } else if ErrorOf(dir, s).None? {
        FreshIsFree(dir, keys, dep, s);
        TemporaryParsed(dir, dep, s);
      }
    }
  }

  /** Rolling parameters are only stored with a change of type: to a deployment that rolls already, setting other
      parameters succeeds and changes nothing. */
  lemma RollingLossless(l: ReadDir, dir: Dir, keys: set<Key>, s: Strategy)
    requires Ready(dir, keys) && s.stype.RollingUpdate?
    ensures var before := MainDeployment(Yamls(dir)).value.body.deployment.strategy;
            && ErrorOf(dir, s).None?
            && ParseStrategy(Yamls(Set(l, dir, s))).Some?
            && (ParseStrategy(Yamls(Set(l, dir, s))).value.rolling == s.rolling <==>
                !before.stype.RollingUpdate? || before.rolling == s.rolling)
  {
    RemovedParsed(dir, MainDeployment(Yamls(dir)).value, s);
    SetReadsBack(l, dir, keys, s);
  }

  /** A canary setting reads back as completed exactly when it adds no matches of its own to the route. */
  lemma CanaryReadsBack(l: ReadDir, dir: Dir, keys: set<Key>, s: Strategy)
    requires Ready(dir, keys) && CoversAt(keys, dir, s) && s.stype.Canary? && ErrorOf(dir, s).None?
    ensures var c := CanaryOf(MainDeployment(Yamls(dir)).value, s);
            ParseStrategy(Yamls(Set(l, dir, s))) == Some(Strategy(Canary, Some(c), None, None)) <==> !AddsMatches(c)
  {
    SetReadsBack(l, dir, keys, s);
    CanaryLossless(MainDeployment(Yamls(dir)).value, s);
  }

  /** What may be created depends on the deployment's name only. */
  lemma SameCovers(keys: set<Key>, dep: Object, other: Object, s: Strategy)
    requires dep.meta == other.meta
    ensures Covers(keys, dep, s) <==> Covers(keys, other, s)
  {
  }

  /** The directory stays ready all along a run, under the same name. */
  lemma {:induction false} RunStaysReady(l: ReadDir, dir: Dir, keys: set<Key>, ss: seq<Strategy>)
    requires Ready(dir, keys) && forall s :: s in ss ==> CoversAt(keys, dir, s)
    ensures Ready(SetAll(l, dir, ss), keys)
    ensures MainDeployment(Yamls(SetAll(l, dir, ss))).value.meta == MainDeployment(Yamls(dir)).value.meta
    decreases |ss|
  {
    if ss != [] {
      var less, last := ss[..|ss| - 1], ss[|ss| - 1];
      assert last in ss && forall s :: s in less ==> s in ss;
      RunStaysReady(l, dir, keys, less);
      var mid := SetAll(l, dir, less);
      SameCovers(keys, MainDeployment(Yamls(dir)).value, MainDeployment(Yamls(mid)).value, last);
      SetReadsBack(l, mid, keys, last);
    }
  }

  /** So every strategy of a run reads back at its turn. */
  lemma RunReadsBack(l: ReadDir, dir: Dir, keys: set<Key>, ss: seq<Strategy>, s: Strategy)
    requires Ready(dir, keys) && CoversAt(keys, dir, s) && forall t :: t in ss ==> CoversAt(keys, dir, t)
    ensures var mid := SetAll(l, dir, ss);
            ErrorOf(mid, s).None? && !s.stype.Unset? && !s.stype.OtherType? ==>
              ParseStrategy(Yamls(Set(l, mid, s))) == Some(Expected(MainDeployment(Yamls(mid)).value, s))
  {
    RunStaysReady(l, dir, keys, ss);
    var mid := SetAll(l, dir, ss);
    SameCovers(keys, MainDeployment(Yamls(dir)).value, MainDeployment(Yamls(mid)).value, s);
    SetReadsBack(l, mid, keys, s);
  }
}
