/** When the stale-snapshot store refines a plain map from keys to documents: exactly as long as no create, update or
    delete addresses a key that an earlier call of the transaction created or deleted, and every patch makes the same of
    the document in the snapshot as of the present one. */
module StoreRefinement {
  import opened Wrappers
  import opened ManifestStore

  /** A writing call of a transaction. */
  datatype Op<!D> =
    | OpCreate(doc: D)
    | OpUpdate(doc: D)
    | OpDelete(key: Key)
    | OpPatch(key: Key, patch: D -> Option<D>)

  function KeyOf<D>(codec: Codec<D>, op: Op<D>): Key {
    match op
    case OpCreate(doc) => codec.key(doc)
    case OpUpdate(doc) => codec.key(doc)
    case OpDelete(key) => key
    case OpPatch(key, _) => key
  }

  ghost function EffectOf<D>(codec: Codec<D>, snap: Directory<D>, op: Op<D>): Effect<D> {
    match op
    case OpCreate(doc) => CreateEffect(codec, snap, doc)
    case OpUpdate(doc) => UpdateEffect(codec, snap, doc)
    case OpDelete(key) => DeleteEffect(codec, snap, key)
    case OpPatch(key, patch) => PatchEffect(codec, snap, key, patch)
  }

  /** The calls one after another, all answered from the same snapshot, up to the first error. */
  ghost function Transaction<D>(codec: Codec<D>, snap: Directory<D>, ops: seq<Op<D>>): Effect<D> {
    if ops == [] then Done()
    else Then(Transaction(codec, snap, ops[..|ops| - 1]), EffectOf(codec, snap, ops[|ops| - 1]))
  }

  // ---- The plain map ----

  datatype Table<D> = Table(docs: map<Key, D>, error: Option<Error>)

  function Lookup<D>(docs: map<Key, D>, key: Key): Option<D> {
    if key in docs then Some(docs[key]) else None
  }

  function TableStep<D>(codec: Codec<D>, docs: map<Key, D>, op: Op<D>): Table<D> {
    var key := KeyOf(codec, op);
    match op
    case OpCreate(doc) =>
      if key.name == "" then Table(docs, Some(BadRequest))
      else if key in docs then Table(docs, Some(AlreadyExists))
      else Table(docs[key := codec.settle(doc)], None)
    case OpUpdate(doc) =>
      if key in docs then Table(docs[key := codec.settle(doc)], None) else Table(docs, Some(NotFound))
    case OpDelete(_) => if key in docs then Table(docs - {key}, None) else Table(docs, Some(NotFound))
    case OpPatch(_, patch) =>
      if key !in docs then Table(docs, None)
      else
        match patch(docs[key])
        case None => Table(docs, Some(BadPatch))
        case Some(d) => Table(docs[key := codec.settle(d)], None)
  }

  function TableRun<D>(codec: Codec<D>, docs: map<Key, D>, ops: seq<Op<D>>): Table<D> {
    if ops == [] then Table(docs, None)
    else
      var before := TableRun(codec, docs, ops[..|ops| - 1]);
      if before.error.Some? then before else TableStep(codec, before.docs, ops[|ops| - 1])
  }

  // ---- The refinement ----

  /** Dropping the status does not change what a document is. */
  ghost predicate Lawful<D(!new)>(codec: Codec<D>) {
    forall d :: codec.key(codec.settle(d)) == codec.key(d)
  }

  /** Loading the directory gives this map. */
  ghost predicate Shows<D>(codec: Codec<D>, dir: Directory<D>, docs: map<Key, D>) {
    UniqueKeys(codec, dir) && forall k :: Read(codec, dir, k) == Lookup(docs, k)
  }

  ghost function View<D>(codec: Codec<D>, dir: Directory<D>): map<Key, D> {
    var keys := set f | f in dir && IsYaml(f) && dir[f].Resource? :: codec.key(dir[f].doc);
    map k | k in keys && Read(codec, dir, k).Some? :: Read(codec, dir, k).value
  }

  lemma ViewShows<D>(codec: Codec<D>, dir: Directory<D>)
    requires UniqueKeys(codec, dir)
    ensures Shows(codec, dir, View(codec, dir))
  {
  }

  lemma ShowsAt<D>(codec: Codec<D>, dir: Directory<D>, docs: map<Key, D>, f: string, key: Key)
    requires Shows(codec, dir, docs) && Holds(codec, dir, f, key)
    ensures Where(codec, dir, key) == Some(f) && key in docs && docs[key] == dir[f].doc
  {
    assert Present(codec, dir, key);
    assert Read(codec, dir, key) == Lookup(docs, key);
  }

  lemma ShowsAbsent<D>(codec: Codec<D>, dir: Directory<D>, docs: map<Key, D>, key: Key)
    requires Shows(codec, dir, docs)
    ensures !Present(codec, dir, key) <==> key !in docs
  {
    assert Read(codec, dir, key) == Lookup(docs, key);
  }

  /** The key is in the same files before and after. */
  ghost predicate SamePlace<D>(codec: Codec<D>, before: Directory<D>, after: Directory<D>, key: Key) {
    forall f :: Holds(codec, before, f, key) <==> Holds(codec, after, f, key)
  }

  /** The files that hold the key are the same before and after, and unchanged. */
  ghost predicate SameAt<D>(codec: Codec<D>, before: Directory<D>, after: Directory<D>, key: Key) {
    forall f :: (Holds(codec, before, f, key) <==> Holds(codec, after, f, key)) &&
                (Holds(codec, before, f, key) ==> before[f] == after[f])
  }

  lemma SameRead<D>(codec: Codec<D>, before: Directory<D>, after: Directory<D>, key: Key)
    requires SameAt(codec, before, after, key) && UniqueKeys(codec, before)
    ensures Read(codec, after, key) == Read(codec, before, key) && Where(codec, after, key) == Where(codec, before, key)
  {
  }

  /** Writing the document of a key into its own file, or into a new one when there is none. */
  lemma PutShows<D>(codec: Codec<D>, dir: Directory<D>, docs: map<Key, D>, f: string, d: D)
    requires Shows(codec, dir, docs) && IsYaml(f)
    requires Holds(codec, dir, f, codec.key(d)) || (f !in dir && !Present(codec, dir, codec.key(d)))
    ensures var after := dir[f := Resource(d)];
            && Shows(codec, after, docs[codec.key(d) := d])
            && (forall k :: k != codec.key(d) ==> SameAt(codec, dir, after, k))
            && (Holds(codec, dir, f, codec.key(d)) ==> SamePlace(codec, dir, after, codec.key(d)))
  {
    var key, after := codec.key(d), dir[f := Resource(d)];
    forall g, k
      ensures Holds(codec, after, g, k) <==> if k == key then g == f else Holds(codec, dir, g, k)
      ensures k != key && Holds(codec, dir, g, k) ==> after[g] == dir[g]
    {
      if k == key && Holds(codec, dir, g, k) {
        assert Present(codec, dir, key);
        assert g == f;
      }
    }
    assert Holds(codec, after, f, key);
    forall k
      ensures Read(codec, after, k) == Lookup(docs[key := d], k)
    {
      if k != key {
        SameRead(codec, dir, after, k);
        assert Read(codec, dir, k) == Lookup(docs, k);
      }
    }
  }

  lemma RemoveShows<D>(codec: Codec<D>, dir: Directory<D>, docs: map<Key, D>, f: string, key: Key)
    requires Shows(codec, dir, docs) && Holds(codec, dir, f, key)
    ensures var after := dir - {f};
            && Shows(codec, after, docs - {key})
            && forall k :: k != key ==> SameAt(codec, dir, after, k)
  {
    var after := dir - {f};
    forall g, k
      ensures Holds(codec, after, g, k) <==> k != key && Holds(codec, dir, g, k)
      ensures Holds(codec, after, g, k) ==> after[g] == dir[g]
    {
      if k == key && Holds(codec, dir, g, k) {
        assert g == f;
      }
    }
    forall k
      ensures Read(codec, after, k) == Lookup(docs - {key}, k)
    {
      if k != key {
        SameRead(codec, dir, after, k);
        assert Read(codec, dir, k) == Lookup(docs, k);
      }
    }
  }

  /** No two resources to be created share a file. */
  ghost predicate DistinctFiles<D>(codec: Codec<D>, ops: seq<Op<D>>) {
    forall i, j :: 0 <= i < j < |ops| && ops[i].OpCreate? && ops[j].OpCreate? &&
                   KeyOf(codec, ops[i]) != KeyOf(codec, ops[j]) ==>
      FileName(KeyOf(codec, ops[i])) != FileName(KeyOf(codec, ops[j]))
  }

  /** No patch turns a document into another resource. */
  ghost predicate PatchesKeep<D(!new)>(codec: Codec<D>, ops: seq<Op<D>>) {
    forall i, d :: 0 <= i < |ops| && ops[i].OpPatch? && codec.key(d) == ops[i].key && ops[i].patch(d).Some? ==>
      codec.key(ops[i].patch(d).value) == codec.key(d)
  }

  /** The file a create would pick is free, unless the create fails anyway. */
  ghost predicate FreshFor<D>(codec: Codec<D>, dir: Directory<D>, ops: seq<Op<D>>) {
    forall i :: 0 <= i < |ops| && ops[i].OpCreate? ==>
      Present(codec, dir, KeyOf(codec, ops[i])) || FileName(KeyOf(codec, ops[i])) !in dir
  }

  ghost predicate Admissible<D(!new)>(codec: Codec<D>, dir: Directory<D>, ops: seq<Op<D>>) {
    Lawful(codec) && DistinctFiles(codec, ops) && PatchesKeep(codec, ops) && FreshFor(codec, dir, ops)
  }

  /** The call leaves its key where it is. */
  predicate Rewrites<D>(op: Op<D>) {
    op.OpUpdate? || op.OpPatch?
  }

  /** The call is refused for its empty name, whatever the store holds. */
  predicate Nameless<D>(codec: Codec<D>, op: Op<D>) {
    op.OpCreate? && codec.key(op.doc).name == ""
  }

  /** A create, update or delete whose key an earlier call created or deleted. */
  predicate Flipped<D>(codec: Codec<D>, ops: seq<Op<D>>, i: nat) {
    i < |ops| && exists j :: 0 <= j < i && KeyOf(codec, ops[j]) == KeyOf(codec, ops[i]) && !Rewrites(ops[j])
  }

  /** The patch makes the same of the document in the snapshot as of the present one: the same document, or the same
      refusal. Where the snapshot lacks the document the patch is not applied, so the present one must not change. */
  ghost predicate SamePatch<D>(codec: Codec<D>, patch: D -> Option<D>, snapshot: Option<D>, present: Option<D>) {
    match (snapshot, present)
    case (None, None) => true
    case (None, Some(d)) => patch(d).Some? && codec.settle(patch(d).value) == d
    case (Some(_), None) => false
    case (Some(c), Some(d)) =>
      match (patch(c), patch(d))
      case (None, None) => true
      case (Some(x), Some(y)) => codec.settle(x) == codec.settle(y)
      case _ => false
  }

  /** Call `i` depends on what earlier calls did and the snapshot does not show: a patch makes something else of the
      snapshot's document, or any other call addresses a key that was created or deleted. */
  ghost predicate Stale<D>(codec: Codec<D>, dir: Directory<D>, docs: map<Key, D>, ops: seq<Op<D>>, i: nat)
    requires i < |ops|
  {
    match ops[i]
    case OpPatch(key, patch) =>
      !SamePatch(codec, patch, Read(codec, dir, key), Lookup(TableRun(codec, docs, ops[..i]).docs, key))
    case _ => !Nameless(codec, ops[i]) && Flipped(codec, ops, i)
  }

  /** Call `i` is made, and is stale. */
  ghost predicate Blind<D>(codec: Codec<D>, dir: Directory<D>, docs: map<Key, D>, ops: seq<Op<D>>, i: nat)
    requires i < |ops|
  {
    Transaction(codec, Yamls(dir), ops[..i]).error.None? && Stale(codec, dir, docs, ops, i)
  }

  ghost predicate NoBlindCall<D>(codec: Codec<D>, dir: Directory<D>, docs: map<Key, D>, ops: seq<Op<D>>) {
    forall i: nat :: i < |ops| ==> !Blind(codec, dir, docs, ops, i)
  }

  /** What successful calls without a blind one leave: keys that were at most rewritten are where they were, created and
      deleted ones are there if and only if they were not, and every new file was created by one of the calls. */
  ghost predicate Frame<D>(codec: Codec<D>, dir: Directory<D>, files: Directory<D>, ops: seq<Op<D>>) {
    && (forall k :: (forall i :: 0 <= i < |ops| && KeyOf(codec, ops[i]) == k ==> Rewrites(ops[i])) ==>
          SamePlace(codec, dir, files, k))
    && (forall i :: 0 <= i < |ops| && !Rewrites(ops[i]) ==>
          (Present(codec, dir, KeyOf(codec, ops[i])) <==> !Present(codec, files, KeyOf(codec, ops[i]))))
    && (forall f :: f in files && f !in dir ==>
          exists i :: 0 <= i < |ops| && ops[i].OpCreate? && f == FileName(KeyOf(codec, ops[i])))
  }

  lemma SnapshotWhere<D>(codec: Codec<D>, dir: Directory<D>, key: Key)
    requires UniqueKeys(codec, dir)
    ensures Where(codec, Yamls(dir), key) == Where(codec, dir, key)
    ensures Present(codec, Yamls(dir), key) <==> Present(codec, dir, key)
    ensures Read(codec, Yamls(dir), key) == Read(codec, dir, key)
    ensures UniqueKeys(codec, Yamls(dir))
  {
    assert forall f, k :: Holds(codec, Yamls(dir), f, k) <==> Holds(codec, dir, f, k);
    if Present(codec, dir, key) {
      var f :| Holds(codec, dir, f, key);
      assert Holds(codec, Yamls(dir), f, key);
    }
  }

  lemma SameWhere<D>(codec: Codec<D>, before: Directory<D>, after: Directory<D>, key: Key)
    requires SamePlace(codec, before, after, key) && UniqueKeys(codec, before)
    ensures Where(codec, after, key) == Where(codec, before, key)
    ensures Present(codec, after, key) <==> Present(codec, before, key)
  {
    if Present(codec, before, key) {
      var f :| Holds(codec, before, f, key);
      assert Holds(codec, after, f, key);
    }
  }

  /** What one call does to the files, seen from the outside. */
  ghost predicate Stepped<D>(codec: Codec<D>, files: Directory<D>, after: Directory<D>, op: Op<D>) {
    && (forall k :: k != KeyOf(codec, op) ==> SameAt(codec, files, after, k))
    && (Rewrites(op) ==> SamePlace(codec, files, after, KeyOf(codec, op)))
    && (forall f :: f in after && f !in files ==> op.OpCreate? && f == FileName(KeyOf(codec, op)))
  }

  /** One call, on files in which its key is where it was in the snapshot. */
  lemma StepRefines<D(!new)>(codec: Codec<D>, dir: Directory<D>, files: Directory<D>, docs: map<Key, D>, op: Op<D>)
    requires Lawful(codec) && UniqueKeys(codec, dir) && Shows(codec, files, docs)
    requires SamePlace(codec, dir, files, KeyOf(codec, op))
    requires op.OpPatch? ==> SamePatch(codec, op.patch, Read(codec, dir, op.key), Lookup(docs, op.key))
    requires op.OpCreate? ==> Present(codec, dir, codec.key(op.doc)) || FileName(codec.key(op.doc)) !in files
    requires op.OpPatch? ==> forall d :: codec.key(d) == op.key && op.patch(d).Some? ==>
                               codec.key(op.patch(d).value) == codec.key(d)
    ensures var effect, table := EffectOf(codec, Yamls(dir), op), TableStep(codec, docs, op);
            var after := Perform(files, effect.writes);
            && effect.error == table.error
            && Shows(codec, after, table.docs)
            && Stepped(codec, files, after, op)
  {
    var key := KeyOf(codec, op);
    SnapshotWhere(codec, dir, key);
    SameWhere(codec, dir, files, key);
    ShowsAbsent(codec, files, docs, key);
    FileNameIsYaml(key);
    var effect := EffectOf(codec, Yamls(dir), op);
    var w := Where(codec, files, key);
    if w.Some? {
      ShowsAt(codec, files, docs, w.value, key);
    }
    PerformSingle(files, if effect.writes == [] then Remove("", key) else effect.writes[0]);
    if effect.writes != [] {
      assert effect.writes == [effect.writes[0]];
      match effect.writes[0]
      case Put(f, d) => PutShows(codec, files, docs, f, d);
      case Remove(f, _) => RemoveShows(codec, files, docs, f, key);
    }
  }

  /** A create or delete that succeeds on a key that is where it was turns its presence around. */
  lemma StepFlips<D>(codec: Codec<D>, dir: Directory<D>, files: Directory<D>, docs: map<Key, D>, op: Op<D>,
                     after: Directory<D>)
    requires UniqueKeys(codec, dir) && Shows(codec, files, docs) && Shows(codec, after, TableStep(codec, docs, op).docs)
    requires SamePlace(codec, dir, files, KeyOf(codec, op)) && TableStep(codec, docs, op).error.None? && !Rewrites(op)
    ensures Present(codec, dir, KeyOf(codec, op)) <==> !Present(codec, after, KeyOf(codec, op))
  {
    var key := KeyOf(codec, op);
    SameWhere(codec, dir, files, key);
    ShowsAbsent(codec, files, docs, key);
    ShowsAbsent(codec, after, TableStep(codec, docs, op).docs, key);
  }

  /** A call on a key that is there if and only if the snapshot lacks it is answered wrongly. */
  lemma FlippedDiffers<D>(codec: Codec<D>, dir: Directory<D>, files: Directory<D>, docs: map<Key, D>, op: Op<D>)
    requires UniqueKeys(codec, dir) && Shows(codec, files, docs) && !op.OpPatch?
    requires Present(codec, dir, KeyOf(codec, op)) <==> !Present(codec, files, KeyOf(codec, op))
    ensures Nameless(codec, op) || EffectOf(codec, Yamls(dir), op).error != TableStep(codec, docs, op).error
  {
    SnapshotWhere(codec, dir, KeyOf(codec, op));
    ShowsAbsent(codec, files, docs, KeyOf(codec, op));
  }

  lemma PutRead<D>(codec: Codec<D>, files: Directory<D>, f: string, d: D, docs: map<Key, D>)
    requires IsYaml(f) && Shows(codec, files[f := Resource(d)], docs)
    ensures Lookup(docs, codec.key(d)) == Some(d)
  {
    var after := files[f := Resource(d)];
    assert Holds(codec, after, f, codec.key(d));
    ShowsAt(codec, after, docs, f, codec.key(d));
  }

  /** A patch that makes something else of the two documents is answered wrongly, or leaves other files. */
  lemma PatchDiffers<D(!new)>(codec: Codec<D>, dir: Directory<D>, files: Directory<D>, docs: map<Key, D>, op: Op<D>)
    requires UniqueKeys(codec, dir) && Shows(codec, files, docs) && op.OpPatch? && Lawful(codec)
    requires forall d :: codec.key(d) == op.key && op.patch(d).Some? ==> codec.key(op.patch(d).value) == codec.key(d)
    requires !SamePatch(codec, op.patch, Read(codec, dir, op.key), Lookup(docs, op.key))
    ensures var effect, table := EffectOf(codec, Yamls(dir), op), TableStep(codec, docs, op);
            effect.error != table.error || !Shows(codec, Perform(files, effect.writes), table.docs)
  {
    var effect, table := EffectOf(codec, Yamls(dir), op), TableStep(codec, docs, op);
    SnapshotWhere(codec, dir, op.key);
    match Where(codec, Yamls(dir), op.key) {
      case None =>
        assert effect == Done();
        PerformSingle(files, Remove("", op.key));
        assert Read(codec, files, op.key) == Lookup(docs, op.key);
      case Some(f) =>
        var found := op.patch(Yamls(dir)[f].doc);
        if found.Some? {
          var d := codec.settle(found.value);
          assert effect == Effect([Put(f, d)], None) && codec.key(d) == op.key;
          PerformSingle(files, Put(f, d));
          if Shows(codec, files[f := Resource(d)], table.docs) {
            PutRead(codec, files, f, d, table.docs);
          }
        }
    }
  }

  /** The transaction did to the files what the calls do to the map, and reported the same. */
  ghost predicate Refined<D>(codec: Codec<D>, dir: Directory<D>, docs: map<Key, D>, ops: seq<Op<D>>) {
    var effect, table := Transaction(codec, Yamls(dir), ops), TableRun(codec, docs, ops);
    effect.error == table.error && Shows(codec, Perform(dir, effect.writes), table.docs)
  }

  ghost function FilesAfter<D>(codec: Codec<D>, dir: Directory<D>, ops: seq<Op<D>>): Directory<D> {
    Perform(dir, Transaction(codec, Yamls(dir), ops).writes)
  }

  /** No earlier call created or deleted the key of the last one. */
  lemma LastUntouched<D(!new)>(codec: Codec<D>, dir: Directory<D>, files: Directory<D>, ops: seq<Op<D>>)
    requires ops != [] && DistinctFiles(codec, ops) && FreshFor(codec, dir, ops)
    requires Frame(codec, dir, files, ops[..|ops| - 1]) && !Flipped(codec, ops, |ops| - 1)
    ensures var last := ops[|ops| - 1];
            && SamePlace(codec, dir, files, KeyOf(codec, last))
            && (last.OpCreate? ==>
                  Present(codec, dir, codec.key(last.doc)) || FileName(codec.key(last.doc)) !in files)
  {
    var less, last := ops[..|ops| - 1], ops[|ops| - 1];
    assert forall i :: 0 <= i < |less| ==> less[i] == ops[i];
    assert forall i :: 0 <= i < |less| && KeyOf(codec, less[i]) == KeyOf(codec, last) ==> Rewrites(less[i]);
    assert forall i :: 0 <= i < |less| && less[i].OpCreate? && last.OpCreate? ==>
      FileName(KeyOf(codec, less[i])) != FileName(KeyOf(codec, last));
  }

  lemma FrameStep<D>(codec: Codec<D>, dir: Directory<D>, files: Directory<D>, after: Directory<D>, ops: seq<Op<D>>)
    requires ops != [] && Frame(codec, dir, files, ops[..|ops| - 1]) && !Flipped(codec, ops, |ops| - 1)
    requires Stepped(codec, files, after, ops[|ops| - 1])
    requires var key := KeyOf(codec, ops[|ops| - 1]);
             !Rewrites(ops[|ops| - 1]) ==> (Present(codec, dir, key) <==> !Present(codec, after, key))
    ensures Frame(codec, dir, after, ops)
  {
    FrameKeys(codec, dir, files, after, ops);
    forall i: nat | i < |ops| && !Rewrites(ops[i])
      ensures Present(codec, dir, KeyOf(codec, ops[i])) <==> !Present(codec, after, KeyOf(codec, ops[i]))
    {
      if i < |ops| - 1 {
        FramePresence(codec, dir, files, after, ops, i);
      }
    }
    forall f | f in after && f !in dir
      ensures exists i :: 0 <= i < |ops| && ops[i].OpCreate? && f == FileName(KeyOf(codec, ops[i]))
    {
      var i := FrameFile(codec, dir, files, after, ops, f);
    }
  }

  lemma FramePresence<D>(codec: Codec<D>, dir: Directory<D>, files: Directory<D>, after: Directory<D>, ops: seq<Op<D>>,
                         i: nat)
    requires i < |ops| - 1 && Frame(codec, dir, files, ops[..|ops| - 1])
    requires !Flipped(codec, ops, |ops| - 1) && Stepped(codec, files, after, ops[|ops| - 1]) && !Rewrites(ops[i])
    ensures Present(codec, dir, KeyOf(codec, ops[i])) <==> !Present(codec, after, KeyOf(codec, ops[i]))
  {
    assert ops[..|ops| - 1][i] == ops[i];
    SamePresence(codec, files, after, KeyOf(codec, ops[i]));
  }

  lemma FrameFile<D>(codec: Codec<D>, dir: Directory<D>, files: Directory<D>, after: Directory<D>, ops: seq<Op<D>>,
                     f: string) returns (i: nat)
    requires ops != [] && Frame(codec, dir, files, ops[..|ops| - 1]) && Stepped(codec, files, after, ops[|ops| - 1])
    requires f in after && f !in dir
    ensures i < |ops| && ops[i].OpCreate? && f == FileName(KeyOf(codec, ops[i]))
  {
    var less := ops[..|ops| - 1];
    if f in files {
      i :| i < |less| && less[i].OpCreate? && f == FileName(KeyOf(codec, less[i]));
    } else {
      i := |less|;
    }
  }

  lemma SamePresence<D>(codec: Codec<D>, before: Directory<D>, after: Directory<D>, key: Key)
    requires SameAt(codec, before, after, key)
    ensures Present(codec, before, key) <==> Present(codec, after, key)
  {
    if Present(codec, before, key) {
      var f :| Holds(codec, before, f, key);
      assert Holds(codec, after, f, key);
    }
  }

  lemma FrameKeys<D>(codec: Codec<D>, dir: Directory<D>, files: Directory<D>, after: Directory<D>, ops: seq<Op<D>>)
    requires ops != [] && Frame(codec, dir, files, ops[..|ops| - 1])
    requires Stepped(codec, files, after, ops[|ops| - 1])
    ensures forall k :: (forall i :: 0 <= i < |ops| && KeyOf(codec, ops[i]) == k ==> Rewrites(ops[i])) ==>
              SamePlace(codec, dir, after, k)
  {
    var less, last := ops[..|ops| - 1], ops[|ops| - 1];
    assert last == ops[|less|] && forall i :: 0 <= i < |less| ==> less[i] == ops[i];
    forall k | forall i :: 0 <= i < |ops| && KeyOf(codec, ops[i]) == k ==> Rewrites(ops[i])
      ensures SamePlace(codec, dir, after, k)
    {
      assert KeyOf(codec, ops[|less|]) == k ==> Rewrites(ops[|less|]);
      assert SamePlace(codec, dir, files, k);
      assert k != KeyOf(codec, last) ==> SameAt(codec, files, after, k);
    }
  }

  /** A patch that did nothing leaves the frame as it is. */
  lemma FrameIdle<D>(codec: Codec<D>, dir: Directory<D>, files: Directory<D>, ops: seq<Op<D>>)
    requires ops != [] && Frame(codec, dir, files, ops[..|ops| - 1]) && Rewrites(ops[|ops| - 1])
    ensures Frame(codec, dir, files, ops)
  {
    var less := ops[..|ops| - 1];
    assert forall i :: 0 <= i < |less| ==> less[i] == ops[i];
    forall f | f in files && f !in dir
      ensures exists i :: 0 <= i < |ops| && ops[i].OpCreate? && f == FileName(KeyOf(codec, ops[i]))
    {
      var i :| 0 <= i < |less| && less[i].OpCreate? && f == FileName(KeyOf(codec, less[i]));
      assert ops[i].OpCreate?;
    }
  }

  /** The key of the last call was created or deleted: it is there if and only if the snapshot lacks it. */
  lemma FlippedPresence<D>(codec: Codec<D>, dir: Directory<D>, files: Directory<D>, ops: seq<Op<D>>)
    requires ops != [] && Frame(codec, dir, files, ops[..|ops| - 1]) && Flipped(codec, ops, |ops| - 1)
    ensures Present(codec, dir, KeyOf(codec, ops[|ops| - 1])) <==> !Present(codec, files, KeyOf(codec, ops[|ops| - 1]))
  {
    var less, last := ops[..|ops| - 1], ops[|ops| - 1];
    var j :| 0 <= j < |less| && KeyOf(codec, ops[j]) == KeyOf(codec, last) && !Rewrites(ops[j]);
    assert less[j] == ops[j];
  }

  /** A patch of a key that was created, and that changes nothing there, does nothing. */
  lemma PatchIdle<D>(codec: Codec<D>, dir: Directory<D>, files: Directory<D>, docs: map<Key, D>, op: Op<D>)
    requires UniqueKeys(codec, dir) && Shows(codec, files, docs) && op.OpPatch?
    requires Present(codec, dir, op.key) <==> !Present(codec, files, op.key)
    requires SamePatch(codec, op.patch, Read(codec, dir, op.key), Lookup(docs, op.key))
    ensures EffectOf(codec, Yamls(dir), op) == Done() && TableStep(codec, docs, op) == Table(docs, None)
  {
    SnapshotWhere(codec, dir, op.key);
    ShowsAbsent(codec, files, docs, op.key);
    assert op.key in docs ==> docs[op.key := docs[op.key]] == docs;
  }

  /** What the last call does, if its key was neither created nor deleted before. */
  lemma LastRefines<D(!new)>(codec: Codec<D>, dir: Directory<D>, files: Directory<D>, docs: map<Key, D>,
                             ops: seq<Op<D>>)
    requires UniqueKeys(codec, dir) && Admissible(codec, dir, ops) && ops != [] && Shows(codec, files, docs)
    requires Frame(codec, dir, files, ops[..|ops| - 1]) && !Flipped(codec, ops, |ops| - 1)
    requires var last := ops[|ops| - 1];
             last.OpPatch? ==> SamePatch(codec, last.patch, Read(codec, dir, last.key), Lookup(docs, last.key))
    ensures var last := ops[|ops| - 1];
            var effect, table := EffectOf(codec, Yamls(dir), last), TableStep(codec, docs, last);
            var after := Perform(files, effect.writes);
            && effect.error == table.error && Shows(codec, after, table.docs)
            && (effect.error.None? ==> Frame(codec, dir, after, ops))
  {
    var last := ops[|ops| - 1];
    var effect := EffectOf(codec, Yamls(dir), last);
    LastUntouched(codec, dir, files, ops);
    StepRefines(codec, dir, files, docs, last);
    if effect.error.None? {
      if !Rewrites(last) {
        StepFlips(codec, dir, files, docs, last, Perform(files, effect.writes));
      }
      FrameStep(codec, dir, files, Perform(files, effect.writes), ops);
    }
  }

  /** What the last call does, if its key was created or deleted before and it does not depend on that. */
  lemma LastIdle<D>(codec: Codec<D>, dir: Directory<D>, files: Directory<D>, docs: map<Key, D>, ops: seq<Op<D>>)
    requires UniqueKeys(codec, dir) && ops != [] && Shows(codec, files, docs)
    requires Frame(codec, dir, files, ops[..|ops| - 1]) && Flipped(codec, ops, |ops| - 1)
    requires var last := ops[|ops| - 1];
             if last.OpPatch? then SamePatch(codec, last.patch, Read(codec, dir, last.key), Lookup(docs, last.key))
             else Nameless(codec, last)
    ensures var last := ops[|ops| - 1];
            var effect, table := EffectOf(codec, Yamls(dir), last), TableStep(codec, docs, last);
            && effect.error == table.error && effect.writes == [] && table.docs == docs
            && (effect.error.None? ==> Frame(codec, dir, files, ops))
  {
    if ops[|ops| - 1].OpPatch? {
      FlippedPresence(codec, dir, files, ops);
      PatchIdle(codec, dir, files, docs, ops[|ops| - 1]);
      FrameIdle(codec, dir, files, ops);
    }
  }

  /** One more call after calls that succeeded. */
  lemma OneMore<D(!new)>(codec: Codec<D>, dir: Directory<D>, docs: map<Key, D>, ops: seq<Op<D>>)
    requires UniqueKeys(codec, dir) && Admissible(codec, dir, ops) && ops != []
    requires Refined(codec, dir, docs, ops[..|ops| - 1])
    requires Transaction(codec, Yamls(dir), ops[..|ops| - 1]).error.None?
    requires Frame(codec, dir, FilesAfter(codec, dir, ops[..|ops| - 1]), ops[..|ops| - 1])
    requires !Stale(codec, dir, docs, ops, |ops| - 1)
    ensures Refined(codec, dir, docs, ops)
    ensures Transaction(codec, Yamls(dir), ops).error.None? ==>
              Frame(codec, dir, FilesAfter(codec, dir, ops), ops)
  {
    var less, last := ops[..|ops| - 1], ops[|ops| - 1];
    var before, effect := Transaction(codec, Yamls(dir), less), EffectOf(codec, Yamls(dir), last);
    var files, present := Perform(dir, before.writes), TableRun(codec, docs, less).docs;
    PerformAppend(dir, before.writes, effect.writes);
    if Flipped(codec, ops, |less|) {
      LastIdle(codec, dir, files, present, ops);
      PerformSingle(files, Remove("", KeyOf(codec, last)));
    } else {
      LastRefines(codec, dir, files, present, ops);
    }
  }

  lemma AdmissibleLess<D(!new)>(codec: Codec<D>, dir: Directory<D>, ops: seq<Op<D>>, n: nat)
    requires Admissible(codec, dir, ops) && n <= |ops|
    ensures Admissible(codec, dir, ops[..n])
  {
  }

  lemma NoBlindLess<D>(codec: Codec<D>, dir: Directory<D>, docs: map<Key, D>, ops: seq<Op<D>>, n: nat)
    requires NoBlindCall(codec, dir, docs, ops) && n <= |ops|
    ensures NoBlindCall(codec, dir, docs, ops[..n])
  {
    forall i: nat | i < n
      ensures !Blind(codec, dir, docs, ops[..n], i)
    {
      assert !Blind(codec, dir, docs, ops, i);
      BlindPrefix(codec, dir, docs, ops, n, i);
    }
  }

  /** Whether a call is blind does not depend on later ones. */
  lemma BlindPrefix<D>(codec: Codec<D>, dir: Directory<D>, docs: map<Key, D>, ops: seq<Op<D>>, n: nat, i: nat)
    requires i < n <= |ops|
    ensures Blind(codec, dir, docs, ops[..n], i) <==> Blind(codec, dir, docs, ops, i)
  {
    assert ops[..n][..i] == ops[..i];
    assert forall j :: 0 <= j <= i ==> ops[..n][j] == ops[j];
    assert Flipped(codec, ops[..n], i) <==> Flipped(codec, ops, i);
  }

  lemma NoCalls<D>(codec: Codec<D>, dir: Directory<D>, docs: map<Key, D>)
    requires Shows(codec, dir, docs)
    ensures Refined(codec, dir, docs, []) && Frame(codec, dir, FilesAfter(codec, dir, []), [])
  {
  }

  /** After an error nothing more is done, on either side. */
  lemma Ended<D>(codec: Codec<D>, dir: Directory<D>, docs: map<Key, D>, ops: seq<Op<D>>)
    requires ops != [] && Refined(codec, dir, docs, ops[..|ops| - 1])
    requires Transaction(codec, Yamls(dir), ops[..|ops| - 1]).error.Some?
    ensures Refined(codec, dir, docs, ops) && Transaction(codec, Yamls(dir), ops).error.Some?
  {
  }

  /** Reloading the files after the transaction gives the map's result, with the map's outcome, and keys stay unique. */
  lemma {:induction false} StoreRefinesMap<D(!new)>(codec: Codec<D>, dir: Directory<D>, docs: map<Key, D>,
                                                    ops: seq<Op<D>>)
    requires Shows(codec, dir, docs) && Admissible(codec, dir, ops) && NoBlindCall(codec, dir, docs, ops)
    ensures Refined(codec, dir, docs, ops)
    ensures Transaction(codec, Yamls(dir), ops).error.None? ==> Frame(codec, dir, FilesAfter(codec, dir, ops), ops)
    decreases |ops|
  {
    if ops == [] {
      NoCalls(codec, dir, docs);
    } else {
      var less := ops[..|ops| - 1];
      AdmissibleLess(codec, dir, ops, |less|);
      NoBlindLess(codec, dir, docs, ops, |less|);
      StoreRefinesMap(codec, dir, docs, less);
      if Transaction(codec, Yamls(dir), less).error.None? {
        assert !Blind(codec, dir, docs, ops, |less|);
        OneMore(codec, dir, docs, ops);
      } else {
        Ended(codec, dir, docs, ops);
      }
    }
  }

  /** The last call of calls that are refined one by one was not stale. */
  lemma LastWasSeen<D(!new)>(codec: Codec<D>, dir: Directory<D>, docs: map<Key, D>, ops: seq<Op<D>>)
    requires Shows(codec, dir, docs) && Admissible(codec, dir, ops) && ops != []
    requires Refined(codec, dir, docs, ops) && Refined(codec, dir, docs, ops[..|ops| - 1])
    requires Transaction(codec, Yamls(dir), ops[..|ops| - 1]).error.None?
    requires Frame(codec, dir, FilesAfter(codec, dir, ops[..|ops| - 1]), ops[..|ops| - 1])
    ensures !Stale(codec, dir, docs, ops, |ops| - 1)
  {
    var less, last := ops[..|ops| - 1], ops[|ops| - 1];
    var before, effect := Transaction(codec, Yamls(dir), less), EffectOf(codec, Yamls(dir), last);
    var files, present := Perform(dir, before.writes), TableRun(codec, docs, less).docs;
    if last.OpPatch? {
      PerformAppend(dir, before.writes, effect.writes);
      if !SamePatch(codec, last.patch, Read(codec, dir, last.key), Lookup(present, last.key)) {
        PatchDiffers(codec, dir, files, present, last);
      }
    } else if Flipped(codec, ops, |ops| - 1) {
      FlippedPresence(codec, dir, files, ops);
      FlippedDiffers(codec, dir, files, present, last);
    }
  }

  /** The store does call by call what the map does if and only if no call that is made is stale: no create, update or
      delete of a key that an earlier call created or deleted, and no patch that makes something else of the document in
      the snapshot than of the present one. */
  lemma {:induction false} RefinesExactlyWhen<D(!new)>(codec: Codec<D>, dir: Directory<D>, docs: map<Key, D>,
                                                       ops: seq<Op<D>>)
    requires Shows(codec, dir, docs) && Admissible(codec, dir, ops)
    ensures (forall n :: 0 <= n <= |ops| ==> Refined(codec, dir, docs, ops[..n])) <==>
            NoBlindCall(codec, dir, docs, ops)
    decreases |ops|
  {
    if NoBlindCall(codec, dir, docs, ops) {
      forall n | 0 <= n <= |ops|
        ensures Refined(codec, dir, docs, ops[..n])
      {
        AdmissibleLess(codec, dir, ops, n);
        NoBlindLess(codec, dir, docs, ops, n);
        StoreRefinesMap(codec, dir, docs, ops[..n]);
      }
    } else {
      var n := NotRefined(codec, dir, docs, ops);
    }
  }

  lemma BlindLastDiffers<D(!new)>(codec: Codec<D>, dir: Directory<D>, docs: map<Key, D>, ops: seq<Op<D>>)
    requires Shows(codec, dir, docs) && Admissible(codec, dir, ops) && ops != []
    requires !NoBlindCall(codec, dir, docs, ops) && NoBlindCall(codec, dir, docs, ops[..|ops| - 1])
    ensures !Refined(codec, dir, docs, ops)
  {
    AdmissibleLess(codec, dir, ops, |ops| - 1);
    StoreRefinesMap(codec, dir, docs, ops[..|ops| - 1]);
    BlindLast(codec, dir, docs, ops);
    if Refined(codec, dir, docs, ops) {
      LastWasSeen(codec, dir, docs, ops);
    }
  }

  lemma {:induction false} NotRefined<D(!new)>(codec: Codec<D>, dir: Directory<D>, docs: map<Key, D>, ops: seq<Op<D>>)
    returns (n: nat)
    requires Shows(codec, dir, docs) && Admissible(codec, dir, ops) && !NoBlindCall(codec, dir, docs, ops)
    ensures n <= |ops| && !Refined(codec, dir, docs, ops[..n])
    decreases |ops|
  {
    if NoBlindCall(codec, dir, docs, ops[..|ops| - 1]) {
      BlindLastDiffers(codec, dir, docs, ops);
      n := |ops|;
      assert ops[..n] == ops;
    } else {
      AdmissibleLess(codec, dir, ops, |ops| - 1);
      n := NotRefined(codec, dir, docs, ops[..|ops| - 1]);
      assert ops[..|ops| - 1][..n] == ops[..n];
    }
  }

  /** If only the last call makes a transaction blind, it is blind itself. */
  lemma BlindLast<D>(codec: Codec<D>, dir: Directory<D>, docs: map<Key, D>, ops: seq<Op<D>>)
    requires !NoBlindCall(codec, dir, docs, ops) && ops != [] && NoBlindCall(codec, dir, docs, ops[..|ops| - 1])
    ensures Blind(codec, dir, docs, ops, |ops| - 1)
  {
    var i: nat :| i < |ops| && Blind(codec, dir, docs, ops, i);
    if i < |ops| - 1 {
      BlindPrefix(codec, dir, docs, ops, |ops| - 1, i);
    }
  }

  lemma {:induction false} TableUntouched<D>(codec: Codec<D>, docs: map<Key, D>, ops: seq<Op<D>>, key: Key)
    requires forall i :: 0 <= i < |ops| ==> KeyOf(codec, ops[i]) != key
    ensures Lookup(TableRun(codec, docs, ops).docs, key) == Lookup(docs, key)
    decreases |ops|
  {
    if ops != [] {
      TableUntouched(codec, docs, ops[..|ops| - 1], key);
      assert KeyOf(codec, ops[|ops| - 1]) != key;
    }
  }

  /** A patch that is the first call on its key is never blind. */
  lemma FirstPatchSeen<D>(codec: Codec<D>, dir: Directory<D>, docs: map<Key, D>, ops: seq<Op<D>>, i: nat)
    requires Shows(codec, dir, docs) && i < |ops| && ops[i].OpPatch?
    requires forall j :: 0 <= j < i ==> KeyOf(codec, ops[j]) != ops[i].key
    ensures !Blind(codec, dir, docs, ops, i)
  {
    TableUntouched(codec, docs, ops[..i], ops[i].key);
    ShowsAbsent(codec, dir, docs, ops[i].key);
  }

  /** Writing a key twice breaks the refinement: the second create does not see the first one and succeeds, where the
      map reports that the document exists. */
  lemma SecondCreateUnseen<D>(codec: Codec<D>, d: D)
    requires codec.key(d).name != ""
    ensures var ops := [OpCreate(d), OpCreate(d)];
            && Transaction(codec, map[], ops).error.None?
            && TableRun(codec, map[], ops).error == Some(AlreadyExists)
  {
    var none: Directory<D> := map[];
    var docs: map<Key, D> := map[];
    var one, two := [OpCreate(d)], [OpCreate(d), OpCreate(d)];
    assert one[..0] == [] && two[..1] == one;
    assert !Present(codec, none, codec.key(d));
    assert Transaction(codec, none, []) == Done() && TableRun(codec, docs, []) == Table(docs, None);
    assert Transaction(codec, none, one).error.None?;
    assert TableRun(codec, docs, one) == TableStep(codec, docs, OpCreate(d));
    assert codec.key(d) in TableRun(codec, docs, one).docs;
  }

  lemma TransactionMore<D>(codec: Codec<D>, snap: Directory<D>, ops: seq<Op<D>>, op: Op<D>)
    ensures Transaction(codec, snap, ops + [op]) == Then(Transaction(codec, snap, ops), EffectOf(codec, snap, op))
  {
    assert (ops + [op])[..|ops|] == ops;
  }

  lemma TableMore<D>(codec: Codec<D>, docs: map<Key, D>, ops: seq<Op<D>>, op: Op<D>)
    ensures TableRun(codec, docs, ops + [op]) ==
            var before := TableRun(codec, docs, ops);
            if before.error.Some? then before else TableStep(codec, before.docs, op)
  {
    assert (ops + [op])[..|ops|] == ops;
  }

  /** Comparing call by call matters: after a blind call a transaction may still end as it does on the map. Here the map
      stops at the second create, the store only at the third call, with the same error and the same files. */
  lemma AgreesByChance<D>(codec: Codec<D>, dir: Directory<D>, docs: map<Key, D>, d: D, e: D)
    requires codec.key(d).name != "" && codec.key(e).name != "" && Shows(codec, dir, docs)
    requires codec.key(d) !in docs && codec.key(e) in docs
    ensures var ops := [OpCreate(d)] + [OpCreate(d)] + [OpCreate(e)];
            var store, table := Transaction(codec, Yamls(dir), ops), TableRun(codec, docs, ops);
            && Blind(codec, dir, docs, ops, 1)
            && store.error == table.error == Some(AlreadyExists)
            && Perform(dir, store.writes) == dir[FileName(codec.key(d)) := Resource(codec.settle(d))]
            && table.docs == docs[codec.key(d) := codec.settle(d)]
  {
    var snap, a, b := Yamls(dir), OpCreate(d), OpCreate(e);
    var w := Put(FileName(codec.key(d)), codec.settle(d));
    SnapshotWhere(codec, dir, codec.key(d));
    SnapshotWhere(codec, dir, codec.key(e));
    ShowsAbsent(codec, dir, docs, codec.key(d));
    ShowsAbsent(codec, dir, docs, codec.key(e));
    assert [] + [a] == [a];
    assert ([a] + [a] + [b])[..1] == [a];
    TransactionMore(codec, snap, [], a);
    TransactionMore(codec, snap, [a], a);
    TransactionMore(codec, snap, [a] + [a], b);
    assert [] + [w] == [w] && [w] + [w] + [] == [w] + [w];
    TableMore(codec, docs, [], a);
    TableMore(codec, docs, [a], a);
    TableMore(codec, docs, [a] + [a], b);
    PerformSingle(dir, w);
    PerformSingle(PerformOne(dir, w), w);
    PerformAppend(dir, [w], [w]);
  }
}
