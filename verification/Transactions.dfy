/** Setting and reading strategies through the whole pipeline: pull, open the store, edit, index, commit
    (pkg/apps/application/processor_manifest.go, processor_deploy_strategy.go). */
module Transactions {
  import opened Wrappers
  import opened ManifestStore
  import opened Workloads
  import opened StrategySpec
  import opened Strategies
  import opened Pipeline
  import opened StrategyProofs
  import opened StrategyRoundTrip

  /** The snapshot of a fresh store has one file for every key exactly when the tree has. */
  lemma SnapshotUnique(tree: Snapshot)
    ensures UniqueKeys(OBJECTS, Yamls(tree)) <==> UniqueKeys(OBJECTS, tree)
  {
    assert forall f, k :: Holds(OBJECTS, Yamls(tree), f, k) <==> Holds(OBJECTS, tree, f, k);
  }

  /** From a ready tree, what was set without an error is what reads back, and the tree stays ready. */
  ghost predicate ReadsBack(before: Snapshot, keys: set<Key>, s: Strategy, error: Option<Error>, after: Snapshot) {
    Ready(before, keys) && CoversAt(keys, before, s) ==>
      && Ready(after, keys)
      && (error.None? && !s.stype.Unset? && !s.stype.OtherType? ==>
            ParseStrategy(Yamls(after)) == Some(Expected(MainDeployment(Yamls(before)).value, s)))
  }

  /** What a whole update reports: the error of the edit, or a crash over an index that decodes to null. */
  ghost function OutcomeOf(before: Snapshot, s: Strategy): Option<Error> {
    if ErrorOf(before, s).Some? then ErrorOf(before, s)
    else if Indexable(After(before, s)) then None
    else Some(Crash)
  }

  /** With one file for every key, outcome and tree are the specified ones, and the strategy reads back. */
  ghost predicate SetAsAsked(l: ReadDir, before: Snapshot, keys: set<Key>, s: Strategy, error: Option<Error>,
                             after: Snapshot)
  {
    UniqueKeys(OBJECTS, before) ==>
      && error == OutcomeOf(before, s)
      && after == Set(l, before, s)
      && ReadsBack(before, keys, s, error, after)
  }

  lemma Transacted(l: ReadDir, before: Snapshot, keys: set<Key>, s: Strategy, failure: Option<Error>, files: Snapshot,
                   error: Option<Error>, after: Snapshot)
    requires UniqueKeys(OBJECTS, Yamls(before)) ==>
               Realized(StrategyEffect(Yamls(before), s), failure, before, files)
    requires error == if failure.Some? then failure else if Indexable(files) then None else Some(Crash)
    requires after == if failure.Some? then files else Kustomized(l, files)
    ensures SetAsAsked(l, before, keys, s, error, after)
  {
    SnapshotUnique(before);
    if UniqueKeys(OBJECTS, before) && Ready(before, keys) && CoversAt(keys, before, s) {
      SetReadsBack(l, before, keys, s);
    }
  }

  /** PrepareDeploymentStrategy within StoreUpdateFunc. With one file for every key it leaves the tree that Set says,
      and from a ready tree the strategy reads back; a changed tree is committed on success, nothing on failure. */
  method SetStrategy(repo: Repository<Object>, s: Strategy, msg: string, ghost keys: set<Key>)
    returns (error: Option<Error>)
    requires repo.Valid() && msg != ""
    modifies repo
    ensures repo.Valid()
    ensures repo.commits == if error.Some? || repo.tree == old(repo.commits)[|old(repo.commits)| - 1]
                            then old(repo.commits) else old(repo.commits) + [repo.tree]
    ensures error.None? ==> Agreeing(repo.listing, repo.tree)
    ensures SetAsAsked(repo.listing, old(repo.tree), keys, s, error, repo.tree)
  {
    var store := new FsStore(OBJECTS, repo.tree);
    var failure := PrepareDeploymentStrategy(store, s);
    error := repo.UpdateContentFunc(store.files, failure, msg);
    Transacted(repo.listing, old(repo.tree), keys, s, failure, store.files, error, repo.tree);
  }

  /** Reading the strategy through StoreFunc: the store is opened on the tree as it is now. */
  method ReadStrategy(repo: Repository<Object>) returns (s: Option<Strategy>)
    ensures UniqueKeys(OBJECTS, repo.tree) ==> s == ParseStrategy(Yamls(repo.tree))
  {
    var store := new FsStore(OBJECTS, repo.tree);
    SnapshotUnique(repo.tree);
    s := ParseUpdateStrategy(store);
  }
}
