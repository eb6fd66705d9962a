/** Every change of an application's files passes through pull, edit, kustomization and commit
    (pkg/apps/application/processor_repository.go, processor_manifest.go, helper.go, manifest_files.go). */
module Pipeline {
  import opened Wrappers
  import opened ManifestStore

  const KUSTOMIZATION_FILE := "kustomization.yaml"
  const KUSTOMIZATION_API := "kustomize.config.k8s.io/v1beta1"
  const KUSTOMIZATION_KIND := "Kustomization"

  const EMPTY_KUSTOMIZATION := KustomizeFile("", "", [], [], map[], map[], "")

  /** How a directory is listed: by a fixed order on names. */
  datatype ReadDir = ReadDir(names: set<string> -> seq<string>, before: (string, string) -> bool)

  ghost predicate Ordered(l: ReadDir, xs: seq<string>) {
    forall i, j :: 0 <= i < j < |xs| ==> l.before(xs[i], xs[j])
  }

  /** A listing names every file once, in order; the order is a strict one. */
  ghost predicate Lists(l: ReadDir) {
    && (forall a, b :: l.before(a, b) ==> !l.before(b, a))
    && (forall s :: Ordered(l, l.names(s)) && forall f :: f in l.names(s) <==> f in s)
  }

  lemma SomeMember(xs: seq<string>)
    ensures xs != [] ==> exists f :: f in xs
  {
    if xs != [] {
      assert xs[0] in xs;
    }
  }

  /** Ordered lists of the same names are the same. */
  lemma {:induction false} OrderedUnique(l: ReadDir, xs: seq<string>, ys: seq<string>)
    requires forall a, b :: l.before(a, b) ==> !l.before(b, a)
    requires Ordered(l, xs) && Ordered(l, ys) && forall f :: f in xs <==> f in ys
    ensures xs == ys
    decreases |xs|
  {
    if xs == [] {
      SomeMember(ys);
    } else {
      assert xs[0] in ys && ys != [];
      assert ys[0] in xs;
      var i :| 0 <= i < |ys| && ys[i] == xs[0];
      var j :| 0 <= j < |xs| && xs[j] == ys[0];
      assert i == 0 || j == 0;
      assert xs[0] == ys[0];
      forall f
        ensures f in xs[1..] <==> f in ys[1..]
      {
        TailMembers(l, xs, f);
        TailMembers(l, ys, f);
      }
      OrderedUnique(l, xs[1..], ys[1..]);
    }
  }

  lemma TailMembers(l: ReadDir, xs: seq<string>, f: string)
    requires forall a, b :: l.before(a, b) ==> !l.before(b, a)
    requires Ordered(l, xs) && xs != []
    ensures f in xs[1..] <==> f in xs && f != xs[0]
  {
  }

  predicate IsResourceFile(f: string) {
    IsYaml(f) && f != KUSTOMIZATION_FILE
  }

  function Keep(xs: seq<string>): (ys: seq<string>)
    ensures forall f :: f in ys <==> f in xs && IsResourceFile(f)
  {
    if xs == [] then []
    else
      var last := xs[|xs| - 1];
      assert xs == xs[..|xs| - 1] + [last];
      Keep(xs[..|xs| - 1]) + if IsResourceFile(last) then [last] else []
  }

  lemma {:induction false} KeepOrdered(l: ReadDir, xs: seq<string>)
    requires Ordered(l, xs)
    ensures Ordered(l, Keep(xs))
    decreases |xs|
  {
    if xs != [] {
      var less, last := xs[..|xs| - 1], xs[|xs| - 1];
      KeepOrdered(l, less);
      forall i | 0 <= i < |Keep(less)|
        ensures l.before(Keep(less)[i], last)
      {
        assert Keep(less)[i] in Keep(less);
        var j :| 0 <= j < |less| && less[j] == Keep(less)[i];
        assert xs[j] == less[j];
      }
    }
  }

  /** The header kustomize fills in, with the legacy bases folded into the resources. */
  function FixUp(k: KustomizeFile): KustomizeFile {
    k.(kind := if k.kind == "" then KUSTOMIZATION_KIND else k.kind,
       apiVersion := if k.apiVersion == "" then KUSTOMIZATION_API else k.apiVersion,
       resources := k.resources + k.bases,
       bases := [])
  }

  function Existing<D>(dir: Directory<D>): KustomizeFile {
    if KUSTOMIZATION_FILE in dir && dir[KUSTOMIZATION_FILE].Kustomization?
    then dir[KUSTOMIZATION_FILE].kustomization else EMPTY_KUSTOMIZATION
  }

  /** The index can be updated: there is none, or it decodes to something. An index that decodes to null leaves a nil
      pointer behind, which the update then dereferences. */
  predicate Indexable<D>(dir: Directory<D>) {
    KUSTOMIZATION_FILE in dir ==> !dir[KUSTOMIZATION_FILE].Null?
  }

  /** The index counts every file ending in .yaml but itself. */
  lemma ResourceFileIs(f: string)
    ensures IsResourceFile(f) <==> f != "kustomization.yaml" && exists stem: string :: f == stem + ".yaml"
  {
    if IsYaml(f) {
      assert f == f[..|f| - 5] + ".yaml";
    }
    if stem: string :| f == stem + ".yaml" {
      assert f[|f| - 5..] == ".yaml";
    }
  }

  /** Only an index that decodes to null is in the way. */
  lemma IndexableIs<D>(dir: Directory<D>)
    ensures Indexable(dir) <==> forall f :: f in dir && dir[f].Null? ==> f != "kustomization.yaml"
  {
  }

  /** The directory after InitOrUpdateKustomization: an empty one stays empty, and a crash writes nothing. */
  function Kustomized<D>(l: ReadDir, dir: Directory<D>): Directory<D> {
    if |dir| == 0 || !Indexable(dir) then dir
    else dir[KUSTOMIZATION_FILE :=
               Kustomization(FixUp(Existing(dir)).(resources := Keep(l.names(dir.Keys)),
                                                   commonLabels := map[],
                                                   commonAnnotations := map[]))]
  }

  /** The index agrees with the files: it lists exactly the other .yaml files, once each and in listing order, and adds
      no labels or annotations. */
  ghost predicate Agreeing<D>(l: ReadDir, dir: Directory<D>) {
    dir != map[] ==>
      && KUSTOMIZATION_FILE in dir && dir[KUSTOMIZATION_FILE].Kustomization?
      && var k := dir[KUSTOMIZATION_FILE].kustomization;
         && (forall f :: f in k.resources <==> f in dir && IsResourceFile(f))
         && Ordered(l, k.resources)
         && k.commonLabels == map[] && k.commonAnnotations == map[]
         && k.bases == [] && k.kind != "" && k.apiVersion != ""
  }

  /** Updating the index makes it agree exactly when it can be updated; nothing but the index is ever written. */
  lemma KustomizeAgrees<D>(l: ReadDir, dir: Directory<D>)
    requires Lists(l)
    ensures Agreeing(l, Kustomized(l, dir)) <==> Indexable(dir)
    ensures Kustomized(l, dir) - {KUSTOMIZATION_FILE} == dir - {KUSTOMIZATION_FILE}
  {
    KeepOrdered(l, l.names(dir.Keys));
  }

  /** What the index held, if it could be read. */
  ghost predicate Readable<D>(dir: Directory<D>) {
    KUSTOMIZATION_FILE in dir && dir[KUSTOMIZATION_FILE].Kustomization?
  }

  /** Whatever else the index says, like images and patches, is what it said before; so is its header, where it had
      one. */
  ghost predicate Carried<D>(dir: Directory<D>, after: Directory<D>) {
    && Readable(after)
    && var k := after[KUSTOMIZATION_FILE].kustomization;
       if Readable(dir) then
         var j := dir[KUSTOMIZATION_FILE].kustomization;
         && k.rest == j.rest
         && k.apiVersion == (if j.apiVersion != "" then j.apiVersion else "kustomize.config.k8s.io/v1beta1")
         && k.kind == (if j.kind != "" then j.kind else "Kustomization")
       else k.rest == "" && k.apiVersion == "kustomize.config.k8s.io/v1beta1" && k.kind == "Kustomization"
  }

  /** Updating the index changes nothing in it but the list of resources, the common labels and annotations, and a
      missing header. */
  lemma KustomizeCarries<D>(l: ReadDir, dir: Directory<D>)
    requires dir != map[] && Indexable(dir)
    ensures Carried(dir, Kustomized(l, dir))
  {
  }

  /** A directory is left alone exactly when its index agrees with it or cannot be updated. */
  lemma KustomizedFixed<D>(l: ReadDir, dir: Directory<D>)
    requires Lists(l)
    ensures Kustomized(l, dir) == dir <==> Agreeing(l, dir) || !Indexable(dir)
  {
    KustomizeAgrees(l, dir);
    if Agreeing(l, dir) && dir != map[] {
      var k := dir[KUSTOMIZATION_FILE].kustomization;
      var listed := Keep(l.names(dir.Keys));
      KeepOrdered(l, l.names(dir.Keys));
      OrderedUnique(l, k.resources, listed);
      assert FixUp(k).(resources := listed, commonLabels := map[], commonAnnotations := map[]) == k;
    }
  }

  /** Where the index can be updated, that changes nothing exactly when the index agrees; one that agrees can be. */
  lemma UpdatedSame<D>(l: ReadDir, dir: Directory<D>)
    requires Lists(l) && dir != map[]
    ensures Indexable(dir) ==> (Kustomized(l, dir) == dir <==> Agreeing(l, dir))
    ensures Agreeing(l, dir) ==> Indexable(dir) && Kustomized(l, dir) == dir
  {
    KustomizedFixed(l, dir);
  }

  /** The working tree of one application and the commits made of it. */
  class Repository<D(==)> {
    const listing: ReadDir
    /** How many commits were made before this pipeline took over. */
    const imported: nat
    var tree: Directory<D>
    var commits: seq<Directory<D>>

    constructor (listing: ReadDir, history: seq<Directory<D>>)
      requires Lists(listing) && history != []
      ensures this.listing == listing && imported == |history| && commits == history
      ensures Valid() && tree == history[|history| - 1]
    {
      this.listing := listing;
      imported := |history|;
      tree := history[|history| - 1];
      commits := history;
    }

    /** Every commit the pipeline made has an index that agrees with its files. */
    ghost predicate Valid()
      reads this
    {
      && Lists(listing)
      && commits != []
      && forall i :: imported <= i < |commits| ==> Agreeing(listing, commits[i])
    }

    /** Sorts the listed files into resource files and the index, if there is a readable one. */
    method Scan(files: Directory<D>, names: seq<string>) returns (resourceFiles: seq<string>, found: KustomizeFile)
      requires forall f :: f in names <==> f in files
      ensures resourceFiles == Keep(names) && found == Existing(files)
    {
      resourceFiles, found := [], EMPTY_KUSTOMIZATION;
      for i := 0 to |names|
        invariant resourceFiles == Keep(names[..i])
        invariant found == if KUSTOMIZATION_FILE in names[..i] then Existing(files) else EMPTY_KUSTOMIZATION
      {
        var filename := names[i];
        assert filename in names;
        assert names[..i + 1] == names[..i] + [filename];
        assert names[..i + 1][..i] == names[..i];
        if !IsYaml(filename) {
          assert filename != KUSTOMIZATION_FILE by {
            assert KUSTOMIZATION_FILE[|KUSTOMIZATION_FILE| - |YAML|..] == YAML;
          }
          continue;
        }
        if filename == KUSTOMIZATION_FILE {
          if files[filename].Kustomization? {
            found := files[filename].kustomization;
          }
          continue;
        }
        resourceFiles := resourceFiles + [filename];
      }
      assert names[..|names|] == names;
    }

    /** Completes exactly when the index can be updated. */
    method InitOrUpdateKustomization() returns (error: Option<Error>)
      requires Valid()
      modifies this`tree
      ensures error == if Indexable(old(tree)) then None else Some(Crash)
      ensures tree == Kustomized(listing, old(tree))
      ensures error.None? && old(tree) != map[] ==> Carried(old(tree), tree)
    {
      if |tree| == 0 {
        return None;
      }
      var resourceFiles, kustomization := Scan(tree, listing.names(tree.Keys));
      if KUSTOMIZATION_FILE in tree && tree[KUSTOMIZATION_FILE].Null? {
        return Some(Crash);
      }
      kustomization := FixUp(kustomization);
      kustomization := kustomization.(resources := resourceFiles, commonAnnotations := map[], commonLabels := map[]);
      tree := tree[KUSTOMIZATION_FILE := Kustomization(kustomization)];
      error := None;
    }

    /** A commit is made when there is a message and something changed. */
    method Commit(msg: string)
      requires Valid()
      modifies this`commits
      ensures Agreeing(listing, tree) ==> Valid()
      ensures commits == if msg == "" || tree == old(commits)[|old(commits)| - 1] then old(commits)
                         else old(commits) + [tree]
    {
      if msg == "" {
        return;
      }
      if tree != commits[|commits| - 1] {
        commits := commits + [tree];
      }
    }

    method UpdateKustomizeCommit(msg: string) returns (error: Option<Error>)
      requires Valid()
      modifies this`tree, this`commits
      ensures Valid() && tree == Kustomized(listing, old(tree))
      ensures error == if Indexable(old(tree)) then None else Some(Crash)
      ensures error.None? <==> Agreeing(listing, tree)
      ensures error.None? && old(tree) != map[] ==> Carried(old(tree), tree)
      ensures commits == if error.Some? || msg == "" || tree == old(commits)[|old(commits)| - 1] then old(commits)
                         else old(commits) + [tree]
    {
      error := InitOrUpdateKustomization();
      KustomizeAgrees(listing, old(tree));
      if error.None? {
        Commit(msg);
      }
    }

    /** UpdateContentFunc, with the edit given by the files it leaves and whether it failed: a failed edit, or an index
        that decodes to null, stops the pipeline with what was written so far in the tree and nothing committed. */
    method UpdateContentFunc(edited: Directory<D>, failure: Option<Error>, msg: string) returns (error: Option<Error>)
      requires Valid()
      modifies this`tree, this`commits
      ensures Valid()
      ensures error == if failure.Some? then failure else if Indexable(edited) then None else Some(Crash)
      ensures tree == if failure.Some? then edited else Kustomized(listing, edited)
      ensures error.None? ==> Agreeing(listing, tree)
      ensures error.None? && edited != map[] ==> Carried(edited, tree)
      ensures commits == if error.Some? || msg == "" || tree == old(commits)[|old(commits)| - 1] then old(commits)
                         else old(commits) + [tree]
    {
      tree := edited;
      error := failure;
      if failure.None? {
        error := UpdateKustomizeCommit(msg);
      }
    }

    /** Remove: the emptied application gets no index. */
    method Remove()
      requires Valid()
      modifies this`tree, this`commits
      ensures Valid() && tree == map[] && commits[|commits| - 1] == map[]
    {
      var error := UpdateContentFunc(map[], None, "remove");
    }

    /** GitRevert gives back exactly the files of a commit the pipeline made; of an older one, exactly when its index
        agrees or decodes to null, and then the request crashes. Git keeps no empty directories, so a commit without
        files has no tree to go back to. */
    method GitRevert(rev: nat) returns (error: Option<Error>)
      requires Valid() && rev < |commits|
      modifies this`tree, this`commits
      ensures Valid() && old(commits) <= commits
      ensures error == if old(commits)[rev] == map[] then Some(NotFound)
                       else if Indexable(old(commits)[rev]) then None else Some(Crash)
      ensures error == Some(NotFound) ==> tree == old(tree)
      ensures error.Some? ==> commits == old(commits)
      ensures error != Some(NotFound) ==> tree == Kustomized(listing, old(commits)[rev])
      ensures error.None? ==> (tree == old(commits)[rev] <==> Agreeing(listing, old(commits)[rev]))
      ensures error.None? ==> commits[|commits| - 1] == tree
      ensures rev >= imported && old(commits)[rev] != map[] ==> error.None? && tree == old(commits)[rev]
    {
      var files := commits[rev];
      if |files| == 0 {
        return Some(NotFound);
      }
      error := Restore(files);
      UpdatedSame(listing, files);
    }

    /** The part of GitRevert after the commit was found. */
    method Restore(files: Directory<D>) returns (error: Option<Error>)
      requires Valid()
      modifies this`tree, this`commits
      ensures Valid() && old(commits) <= commits
      ensures error == if Indexable(files) then None else Some(Crash)
      ensures tree == Kustomized(listing, files)
      ensures if error.None? then commits[|commits| - 1] == tree else commits == old(commits)
    {
      Revert(files);
      error := UpdateKustomizeCommit("revert");
    }

    /** Clears the tree and writes the commit's files one by one. */
    method Revert(files: Directory<D>)
      modifies this`tree
      ensures tree == files
    {
      tree := map[];
      var rest := files.Keys;
      while rest != {}
        invariant rest <= files.Keys
        invariant tree == map f | f in files && f !in rest :: files[f]
      {
        var f :| f in rest;
        tree := tree[f := files[f]];
        rest := rest - {f};
      }
    }
  }
}
