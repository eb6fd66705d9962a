/** JSON values and the two patch formats the manifest store and the rollout controls use:
    merge patch (section 2 of RFC 7396) and the "replace" operation (section 4.3 of RFC 6902). */
module Json {
  import opened Wrappers

  datatype Json =
    | Null
    | Bool(b: bool)
    | Number(n: int)
    | Str(s: string)
    | Array(items: seq<Json>)
    | Object(fields: map<string, Json>)

  /** The member `name`, or Null when there is none (an absent member and a null one read alike). */
  function Field(j: Json, name: string): Json {
    if j.Object? && name in j.fields then j.fields[name] else Null
  }

  function Members(j: Json): map<string, Json> {
    if j.Object? then j.fields else map[]
  }

  /** Section 2 of RFC 7396. */
  function MergePatch(target: Json, patch: Json): Json
    decreases patch
  {
    if !patch.Object? then patch
    else
      var base := Members(target);
      Object(map k | k in base.Keys + patch.fields.Keys && (k in patch.fields ==> !patch.fields[k].Null?) ::
               if k in patch.fields then MergePatch(Field(target, k), patch.fields[k]) else base[k])
  }

  /** Section 4.3 of RFC 6902: the value at `path` must exist and is replaced. */
  function Replace(target: Json, path: seq<string>, value: Json): Option<Json> {
    if path == [] then Some(value)
    else if !target.Object? || path[0] !in target.fields then None
    else
      match Replace(target.fields[path[0]], path[1..], value)
      case None => None
      case Some(inner) => Some(Object(target.fields[path[0] := inner]))
  }

  /** The value at `path`, when every step of it exists. */
  function At(target: Json, path: seq<string>): Option<Json> {
    if path == [] then Some(target)
    else if !target.Object? || path[0] !in target.fields then None
    else At(target.fields[path[0]], path[1..])
  }

  /** Applying a merge patch a second time changes nothing. */
  lemma {:induction false} MergeIdempotent(target: Json, patch: Json)
    ensures MergePatch(MergePatch(target, patch), patch) == MergePatch(target, patch)
    decreases patch
  {
    if patch.Object? {
      var once := MergePatch(target, patch);
      var twice := MergePatch(once, patch);
      forall k | k in once.fields
        ensures k in twice.fields && twice.fields[k] == once.fields[k]
      {
        if k in patch.fields {
          MergeIdempotent(Field(target, k), patch.fields[k]);
        }
      }
      assert twice.fields.Keys == once.fields.Keys;
    }
  }

  /** The patch gives a value at the path that is neither null nor an object. */
  predicate Given(patch: Json, path: seq<string>) {
    At(patch, path).Some? && !At(patch, path).value.Object? && !At(patch, path).value.Null?
  }

  /** Somewhere along the path the patch has an object without the next step. */
  ghost predicate LeadsAway(patch: Json, path: seq<string>) {
    exists n :: 0 <= n < |path| && AwayAt(patch, path, n)
  }

  predicate AwayAt(patch: Json, path: seq<string>, n: nat)
    requires n < |path|
  {
    At(patch, path[..n]).Some? && At(patch, path[..n]).value.Object? && path[n] !in At(patch, path[..n]).value.fields
  }

  /** A value the patch gives stands at its path afterwards. */
  lemma {:induction false} MergeSets(target: Json, patch: Json, path: seq<string>)
    requires Given(patch, path)
    ensures At(MergePatch(target, patch), path) == At(patch, path)
    decreases |path|
  {
    if path != [] {
      MergeSets(Field(target, path[0]), patch.fields[path[0]], path[1..]);
    }
  }

  /** Where the patch says null nothing is left. */
  lemma {:induction false} MergeRemoves(target: Json, patch: Json, path: seq<string>)
    requires path != [] && At(patch, path) == Some(Null)
    ensures At(MergePatch(target, patch), path) == None
    decreases |path|
  {
    if |path| > 1 {
      MergeRemoves(Field(target, path[0]), patch.fields[path[0]], path[1..]);
    } else {
      assert path[1..] == [];
    }
  }

  /** Where the patch does not go everything stays. */
  lemma {:induction false} MergeKeeps(target: Json, patch: Json, path: seq<string>)
    requires LeadsAway(patch, path)
    ensures At(MergePatch(target, patch), path) == At(target, path)
    decreases |path|
  {
    var n: nat :| n < |path| && AwayAt(patch, path, n);
    if n > 0 {
      var inner, rest := patch.fields[path[0]], path[1..];
      assert path[..n][1..] == rest[..n - 1];
      assert AwayAt(inner, rest, n - 1);
      MergeKeeps(Field(target, path[0]), inner, rest);
      assert !inner.Null?;
    } else {
      assert path[..0] == [];
    }
  }

  /** Replace succeeds exactly on existing paths, and then the path holds the new value. */
  lemma {:induction false} ReplaceAt(target: Json, path: seq<string>, value: Json)
    ensures Replace(target, path, value).Some? <==> At(target, path).Some?
    ensures Replace(target, path, value).Some? ==> At(Replace(target, path, value).value, path) == Some(value)
  {
    if path != [] && target.Object? && path[0] in target.fields {
      ReplaceAt(target.fields[path[0]], path[1..], value);
    }
  }

  /** Two paths diverge when they differ at some position both have. */
  ghost predicate Diverge(p: seq<string>, q: seq<string>) {
    exists i :: 0 <= i < |p| && i < |q| && p[i] != q[i]
  }

  /** Replace leaves the value at every path that diverges from the replaced one as it was. */
  lemma {:induction false} ReplaceFrame(target: Json, path: seq<string>, value: Json, other: seq<string>)
    requires Replace(target, path, value).Some?
    requires Diverge(path, other)
    ensures At(Replace(target, path, value).value, other) == At(target, other)
  {
    if path[0] == other[0] {
      var i :| 0 <= i < |path| && i < |other| && path[i] != other[i];
      assert path[1..][i - 1] != other[1..][i - 1];
      ReplaceFrame(target.fields[path[0]], path[1..], value, other[1..]);
    }
  }
}
