/** The store over an application's manifest files (pkg/apps/application/manifest_contentstore.go). It decodes the
    directory once, when it is opened; every read is answered from that snapshot and every write goes to the files. */
module ManifestStore {
  import opened Wrappers
  import opened Dashes

  datatype Kind =
    | Deployment
    | Service
    | Rollout
    | VirtualService
    | OtherKind(group: string, version: string, kind: string)

  /** What the store tells resources apart by; the namespace plays no part. */
  datatype Key = Key(kind: Kind, name: string)

  datatype KustomizeFile = KustomizeFile(
    apiVersion: string,
    kind: string,
    resources: seq<string>,
    bases: seq<string>,
    commonLabels: map<string, string>,
    commonAnnotations: map<string, string>,
    rest: string)

  /** A file by what decoding makes of it: a resource, a kustomization (never a resource), nothing at all (it is empty,
      holds only comments, or says null), or any other text. */
  datatype File<D> =
    | Resource(doc: D)
    | Kustomization(kustomization: KustomizeFile)
    | Null(blank: string)
    | Text(content: string)

  type Directory<D> = map<string, File<D>>

  /** All the store needs to know of a document: its key, and the document without its top-level status. */
  datatype Codec<!D> = Codec(key: D -> Key, settle: D -> D)

  /** What a call reports; Crash is a nil dereference, which ends the request. */
  datatype Error = BadRequest | AlreadyExists | NotFound | BadPatch | NoMainDeployment | NoPorts | Crash

  function ToLower(s: string): string {
    seq(|s|, i requires 0 <= i < |s| => if 'A' <= s[i] <= 'Z' then s[i] - 'A' + 'a' else s[i])
  }

  function KindName(k: Kind): string {
    match k
    case Deployment => "deployment"
    case Service => "service"
    case Rollout => "rollout"
    case VirtualService => "virtualservice"
    case OtherKind(_, _, kind) => ToLower(kind)
  }

  const YAML := ".yaml"

  /** The file a resource is created in: kind and name, but neither group nor version. */
  function FileName(k: Key): string {
    KindName(k.kind) + "-" + k.name + YAML
  }

  /** The file name spelled out: the kind in lower case, whatever its group and version, a dash, the name. */
  lemma FileNameIs(k: Key)
    ensures k.kind.Deployment? ==> FileName(k) == "deployment-" + k.name + ".yaml"
    ensures k.kind.Service? ==> FileName(k) == "service-" + k.name + ".yaml"
    ensures k.kind.Rollout? ==> FileName(k) == "rollout-" + k.name + ".yaml"
    ensures k.kind.VirtualService? ==> FileName(k) == "virtualservice-" + k.name + ".yaml"
    ensures k.kind.OtherKind? ==>
              var kind, n := k.kind.kind, |k.kind.kind|;
              && |FileName(k)| == n + 6 + |k.name| && FileName(k)[n..] == "-" + k.name + ".yaml"
              && forall i :: 0 <= i < n ==>
                   FileName(k)[i] as int == kind[i] as int + if 'A' <= kind[i] <= 'Z' then 32 else 0
  {
    var dashed := "-" + k.name + YAML;
    assert FileName(k) == KindName(k.kind) + dashed;
    if k.kind.OtherKind? {
      forall i | 0 <= i < |k.kind.kind|
        ensures FileName(k)[i] == ToLower(k.kind.kind)[i]
      {
      }
    }
  }

  predicate IsYaml(name: string) {
    |name| >= |YAML| && name[|name| - |YAML|..] == YAML
  }

  function Yamls<D>(dir: Directory<D>): Directory<D> {
    map f | f in dir && IsYaml(f) :: dir[f]
  }

  predicate Holds<D>(codec: Codec<D>, dir: Directory<D>, f: string, key: Key) {
    f in dir && IsYaml(f) && dir[f].Resource? && codec.key(dir[f].doc) == key
  }

  /** The files that hold a resource. */
  ghost function Decodable<D>(snap: Directory<D>): set<string> {
    set f | f in snap && snap[f].Resource?
  }

  /** The files that hold a resource of the kind. */
  ghost function OfKind<D>(codec: Codec<D>, snap: Directory<D>, kind: Kind): set<string> {
    set f | f in snap && snap[f].Resource? && codec.key(snap[f].doc).kind == kind
  }

  /** The items are the documents of these files, one for every file. */
  ghost predicate Itemized<D>(snap: Directory<D>, listed: set<string>, items: seq<D>) {
    && |items| == |listed|
    && (forall f :: f in listed ==> f in snap && snap[f].Resource? && snap[f].doc in items)
    && (forall d :: d in items ==> exists f :: f in listed && snap[f] == Resource(d))
  }

  lemma ItemizedMore<D>(snap: Directory<D>, held: set<string>, rest: set<string>, items: seq<D>, f: string)
    requires Itemized(snap, held - rest, items) && f in rest
    ensures f !in held ==> Itemized(snap, held - (rest - {f}), items)
    ensures f in held && f in snap && snap[f].Resource? ==>
              Itemized(snap, held - (rest - {f}), items + [snap[f].doc])
  {
    var listed, more := held - rest, held - (rest - {f});
    if f !in held {
      assert more == listed;
    } else if f in snap && snap[f].Resource? {
      assert more == listed + {f};
      forall d | d in items + [snap[f].doc]
        ensures exists g :: g in more && snap[g] == Resource(d)
      {
        if d in items {
          var g :| g in listed && snap[g] == Resource(d);
          assert g in more;
        } else {
          assert f in more;
        }
      }
    }
  }

  ghost predicate Present<D>(codec: Codec<D>, dir: Directory<D>, key: Key) {
    exists f :: Holds(codec, dir, f, key)
  }

  /** At most one file for every key. */
  ghost predicate UniqueKeys<D>(codec: Codec<D>, dir: Directory<D>) {
    forall f, g, key :: Holds(codec, dir, f, key) && Holds(codec, dir, g, key) ==> f == g
  }

  ghost function Where<D>(codec: Codec<D>, dir: Directory<D>, key: Key): (r: Option<string>)
    ensures r.Some? ==> Holds(codec, dir, r.value, key)
    ensures r.None? ==> !Present(codec, dir, key)
  {
    if exists f :: Holds(codec, dir, f, key) then
      var f :| Holds(codec, dir, f, key);
      Some(f)
    else None
  }

  /** The document of a key. */
  ghost function Read<D>(codec: Codec<D>, dir: Directory<D>, key: Key): Option<D> {
    var w := Where(codec, dir, key);
    if w.Some? then Some(dir[w.value].doc) else None
  }

  // ---- Effects: what a call writes, given the snapshot ----

  datatype Write<D> = Put(file: string, doc: D) | Remove(file: string, key: Key)

  datatype Effect<D> = Effect(writes: seq<Write<D>>, error: Option<Error>)

  function Done<D>(): Effect<D> {
    Effect([], None)
  }

  function Fails<D>(error: Error): Effect<D> {
    Effect([], Some(error))
  }

  /** One call after another; an error ends the sequence, what was written before it stays written. */
  function Then<D>(first: Effect<D>, second: Effect<D>): Effect<D> {
    if first.error.Some? then first else Effect(first.writes + second.writes, second.error)
  }

  function PerformOne<D>(files: Directory<D>, w: Write<D>): Directory<D> {
    match w
    case Put(file, doc) => files[file := Resource(doc)]
    case Remove(file, _) => files - {file}
  }

  function Perform<D>(files: Directory<D>, writes: seq<Write<D>>): Directory<D> {
    if writes == [] then files else PerformOne(Perform(files, writes[..|writes| - 1]), writes[|writes| - 1])
  }

  lemma {:induction false} PerformAppend<D>(files: Directory<D>, a: seq<Write<D>>, b: seq<Write<D>>)
    ensures Perform(files, a + b) == Perform(Perform(files, a), b)
  {
    if b == [] {
      assert a + b == a;
    } else {
      assert (a + b)[..|a + b| - 1] == a + b[..|b| - 1];
      PerformAppend(files, a, b[..|b| - 1]);
    }
  }

  lemma PerformSingle<D>(files: Directory<D>, w: Write<D>)
    ensures Perform(files, []) == files && Perform(files, [w]) == PerformOne(files, w)
  {
  }

  ghost function CreateEffect<D>(codec: Codec<D>, snap: Directory<D>, obj: D): Effect<D> {
    var key := codec.key(obj);
    if key.name == "" then Fails(BadRequest)
    else if Present(codec, snap, key) then Fails(AlreadyExists)
    else Effect([Put(FileName(key), codec.settle(obj))], None)
  }

  ghost function UpdateEffect<D>(codec: Codec<D>, snap: Directory<D>, obj: D): Effect<D> {
    match Where(codec, snap, codec.key(obj))
    case None => Fails(NotFound)
    case Some(f) => Effect([Put(f, codec.settle(obj))], None)
  }

  ghost function DeleteEffect<D>(codec: Codec<D>, snap: Directory<D>, key: Key): Effect<D> {
    match Where(codec, snap, key)
    case None => Fails(NotFound)
    case Some(f) => Effect([Remove(f, key)], None)
  }

  /** Patching what is not there succeeds and does nothing. */
  ghost function PatchEffect<D>(codec: Codec<D>, snap: Directory<D>, key: Key, patch: D -> Option<D>): Effect<D> {
    match Where(codec, snap, key)
    case None => Done()
    case Some(f) =>
      match patch(snap[f].doc)
      case None => Fails(BadPatch)
      case Some(d) => Effect([Put(f, codec.settle(d))], None)
  }

  /** A call reported this and left the files like that, as the effect says. */
  ghost predicate Realized<D>(effect: Effect<D>, error: Option<Error>, before: Directory<D>, after: Directory<D>) {
    error == effect.error && after == Perform(before, effect.writes)
  }

  class FsStore<D> {
    const codec: Codec<D>
    const resources: Directory<D>
    var files: Directory<D>

    /** NewGitFsStore: the .yaml files are read once. */
    constructor (codec: Codec<D>, fs: Directory<D>)
      ensures this.codec == codec && files == fs && resources == Yamls(fs) && Valid()
    {
      this.codec := codec;
      files := fs;
      resources := Yamls(fs);
    }

    /** Only .yaml files were read. */
    ghost predicate Valid() {
      forall f :: f in resources ==> IsYaml(f)
    }

    ghost predicate Unique() {
      UniqueKeys(codec, resources)
    }

    /** Some file of the snapshot with the key; with several, any of them, as the iteration order is random. */
    method Find(key: Key) returns (r: Option<string>)
      ensures r.Some? ==> Holds(codec, resources, r.value, key)
      ensures r.None? <==> !Present(codec, resources, key)
      ensures Unique() ==> r == Where(codec, resources, key)
    {
      var rest := resources.Keys;
      while rest != {}
        invariant rest <= resources.Keys
        invariant forall f :: Holds(codec, resources, f, key) ==> f in rest
      {
        var f :| f in rest;
        if Holds(codec, resources, f, key) {
          return Some(f);
        }
        rest := rest - {f};
      }
      r := None;
    }

    method Create(obj: D) returns (error: Option<Error>)
      modifies this`files
      ensures Realized(CreateEffect(codec, resources, obj), error, old(files), files)
    {
      var key := codec.key(obj);
      if key.name == "" {
        return Some(BadRequest);
      }
      var found := Find(key);
      if found.Some? {
        return Some(AlreadyExists);
      }
      PerformSingle(files, Put(FileName(key), codec.settle(obj)));
      files := files[FileName(key) := Resource(codec.settle(obj))];
      error := None;
    }

    method Delete(key: Key) returns (error: Option<Error>)
      modifies this`files
      ensures error == if Present(codec, resources, key) then None else Some(NotFound)
      ensures error.None? ==> exists f :: Holds(codec, resources, f, key) && files == old(files) - {f}
      ensures error.Some? ==> files == old(files)
      ensures Unique() ==> Realized(DeleteEffect(codec, resources, key), error, old(files), files)
    {
      var found := Find(key);
      if found.None? {
        return Some(NotFound);
      }
      PerformSingle(files, Remove(found.value, key));
      files := files - {found.value};
      error := None;
    }

    /** The decodable resources in random order, one item a file. */
    method ListAll() returns (items: seq<D>)
      ensures Itemized(resources, Decodable(resources), items)
    {
      items := [];
      var rest := resources.Keys;
      ghost var held := Decodable(resources);
      while rest != {}
        invariant rest <= resources.Keys && Itemized(resources, held - rest, items)
      {
        var f :| f in rest;
        ItemizedMore(resources, held, rest, items, f);
        if resources[f].Resource? {
          items := items + [resources[f].doc];
        }
        rest := rest - {f};
      }
      assert held - {} == held;
    }

    /** The resources of one kind, one item a file. */
    method List(kind: Kind) returns (items: seq<D>)
      ensures Itemized(resources, OfKind(codec, resources, kind), items)
    {
      items := [];
      var rest := resources.Keys;
      ghost var held := OfKind(codec, resources, kind);
      while rest != {}
        invariant rest <= resources.Keys && Itemized(resources, held - rest, items)
      {
        var f :| f in rest;
        ItemizedMore(resources, held, rest, items, f);
        if resources[f].Resource? && codec.key(resources[f].doc).kind == kind {
          items := items + [resources[f].doc];
        }
        rest := rest - {f};
      }
      assert held - {} == held;
    }

    method Get(key: Key) returns (r: Option<D>)
      ensures r.Some? <==> Present(codec, resources, key)
      ensures r.Some? ==> exists f :: Holds(codec, resources, f, key) && resources[f].doc == r.value
      ensures Unique() ==> r == Read(codec, resources, key)
    {
      var found := Find(key);
      r := if found.Some? then Some(resources[found.value].doc) else None;
    }

    method Patch(key: Key, patch: D -> Option<D>) returns (error: Option<Error>)
      modifies this`files
      ensures !Present(codec, resources, key) ==> error.None? && files == old(files)
      ensures Present(codec, resources, key) ==>
                exists f :: Holds(codec, resources, f, key) &&
                  match patch(resources[f].doc)
                  case None => error == Some(BadPatch) && files == old(files)
                  case Some(d) => error.None? && files == old(files)[f := Resource(codec.settle(d))]
      ensures Unique() ==> Realized(PatchEffect(codec, resources, key, patch), error, old(files), files)
    {
      var found := Find(key);
      if found.None? {
        return None;
      }
      var patched := patch(resources[found.value].doc);
      if patched.None? {
        return Some(BadPatch);
      }
      PerformSingle(files, Put(found.value, codec.settle(patched.value)));
      files := files[found.value := Resource(codec.settle(patched.value))];
      error := None;
    }

    method Update(obj: D) returns (error: Option<Error>)
      modifies this`files
      ensures error == if Present(codec, resources, codec.key(obj)) then None else Some(NotFound)
      ensures error.None? ==> exists f :: Holds(codec, resources, f, codec.key(obj)) &&
                                          files == old(files)[f := Resource(codec.settle(obj))]
      ensures error.Some? ==> files == old(files)
      ensures Unique() ==> Realized(UpdateEffect(codec, resources, obj), error, old(files), files)
    {
      var found := Find(codec.key(obj));
      if found.None? {
        return Some(NotFound);
      }
      PerformSingle(files, Put(found.value, codec.settle(obj)));
      files := files[found.value := Resource(codec.settle(obj))];
      error := None;
    }
  }

  // ---- File names ----

  /** Resources whose lower-case kinds hold no dash share a file name exactly when both those and the names are equal.
      Groups and versions play no part, so they may collide. */
  lemma FileNameInjective(j: Key, k: Key)
    requires DashFree(KindName(j.kind)) && DashFree(KindName(k.kind))
    ensures FileName(j) == FileName(k) <==> KindName(j.kind) == KindName(k.kind) && j.name == k.name
  {
    if FileName(j) == FileName(k) {
      var x, y := j.name + YAML, k.name + YAML;
      assert FileName(j) == KindName(j.kind) + "-" + x && FileName(k) == KindName(k.kind) + "-" + y;
      HeadOfJoin(KindName(j.kind), x, KindName(k.kind), y);
      assert x == y && x[..|x| - |YAML|] == j.name && y[..|y| - |YAML|] == k.name;
    }
  }

  lemma FileNameIsYaml(k: Key)
    ensures IsYaml(FileName(k))
  {
  }
}
