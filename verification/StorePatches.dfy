/** Patching manifests in the store: the documents are JSON objects, the patches merge patches or the replace operation
    a rollback sends (pkg/apps/application/manifest_contentstore.go, deploy_strategy_ctrl.go). */
module StorePatches {
  import opened Wrappers
  import opened Json
  import opened ManifestStore
  import opened StoreRefinement

  function TextOf(j: Json): string {
    if j.Str? then j.s else ""
  }

  function KeyOfDoc(doc: Json): Key {
    Key(OtherKind(TextOf(Field(doc, "apiVersion")), "", TextOf(Field(doc, "kind"))),
        TextOf(Field(Field(doc, "metadata"), "name")))
  }

  /** The string at a path, "" for anything else. */
  function TextAt(doc: Json, path: seq<string>): string {
    if At(doc, path).Some? && At(doc, path).value.Str? then At(doc, path).value.s else ""
  }

  /** What a document is known by: its version, its kind and its name, not its namespace or anything else. */
  lemma KeyReads(doc: Json)
    ensures KeyOfDoc(doc).kind.OtherKind? && KeyOfDoc(doc).kind.kind == TextAt(doc, ["kind"])
    ensures KeyOfDoc(doc).kind.group == TextAt(doc, ["apiVersion"]) && KeyOfDoc(doc).kind.version == ""
    ensures KeyOfDoc(doc).name == TextAt(doc, ["metadata", "name"])
  {
    AtOne(doc, "apiVersion");
    AtOne(doc, "kind");
    AtTwo(doc, "metadata", "name");
  }

  lemma AtOne(j: Json, a: string)
    ensures At(j, [a]) == if j.Object? && a in j.fields then Some(j.fields[a]) else None
  {
    assert [a][1..] == [];
  }

  /** removeStatusField: anything but an object is left as it is. */
  function StripStatus(doc: Json): Json {
    if doc.Object? then Object(doc.fields - {"status"}) else doc
  }

  const DOCUMENTS: Codec<Json> := Codec((doc: Json) => KeyOfDoc(doc), (doc: Json) => StripStatus(doc))

  predicate StatusFree(doc: Json) {
    "status" !in Members(doc)
  }

  /** A merge patch as the store applies it: the result must decode into the resource's type. */
  function Merging(patch: Json, decodes: Json -> bool): Json -> Option<Json> {
    (doc: Json) =>
      var merged := MergePatch(doc, patch);
      if merged.Object? && decodes(merged) then Some(merged) else None
  }

  function Replacing(path: seq<string>, value: Json, decodes: Json -> bool): Json -> Option<Json> {
    (doc: Json) =>
      var replaced := Replace(doc, path, value);
      if replaced.Some? && replaced.value.Object? && decodes(replaced.value) then replaced else None
  }

  /** The store after one transaction that patches the resource. */
  ghost function Patched(dir: Directory<Json>, key: Key, patch: Json -> Option<Json>): Directory<Json> {
    Perform(dir, PatchEffect(DOCUMENTS, Yamls(dir), key, patch).writes)
  }

  ghost predicate WritesStatusFree(effect: Effect<Json>) {
    forall i :: 0 <= i < |effect.writes| && effect.writes[i].Put? ==> StatusFree(effect.writes[i].doc)
  }

  /** Whatever is created, updated or patched, the file written has no top-level status. */
  lemma StoreDropsStatus(snap: Directory<Json>, op: Op<Json>)
    ensures WritesStatusFree(EffectOf(DOCUMENTS, snap, op))
  {
  }

  lemma SnapshotHolds(dir: Directory<Json>, f: string, key: Key)
    ensures Holds(DOCUMENTS, Yamls(dir), f, key) <==> Holds(DOCUMENTS, dir, f, key)
  {
  }

  /** The file is the one that holds the key. */
  ghost predicate OnlyAt(dir: Directory<Json>, f: string, key: Key) {
    forall g :: Holds(DOCUMENTS, dir, g, key) <==> g == f
  }

  lemma PatchedAt(dir: Directory<Json>, f: string, key: Key, patch: Json -> Option<Json>)
    requires OnlyAt(dir, f, key)
    ensures Holds(DOCUMENTS, dir, f, key)
    ensures Patched(dir, key, patch) ==
            match patch(dir[f].doc)
            case None => dir
            case Some(d) => dir[f := Resource(StripStatus(d))]
    ensures PatchEffect(DOCUMENTS, Yamls(dir), key, patch).error ==
            if patch(dir[f].doc).Some? then None else Some(BadPatch)
  {
    assert Holds(DOCUMENTS, dir, f, key);
    forall g
      ensures Holds(DOCUMENTS, Yamls(dir), g, key) <==> g == f
    {
      SnapshotHolds(dir, g, key);
    }
    assert Holds(DOCUMENTS, Yamls(dir), f, key);
    assert Where(DOCUMENTS, Yamls(dir), key) == Some(f);
    match patch(dir[f].doc)
    case None =>
    case Some(d) => PerformSingle(dir, Put(f, StripStatus(d)));
  }

  lemma PatchedAbsent(dir: Directory<Json>, key: Key, patch: Json -> Option<Json>)
    requires !Present(DOCUMENTS, dir, key)
    ensures Patched(dir, key, patch) == dir
  {
    forall f
      ensures !Holds(DOCUMENTS, Yamls(dir), f, key)
    {
      SnapshotHolds(dir, f, key);
    }
  }

  /** A merge patch that mentions only the status leaves a status-free manifest as it was. */
  lemma StatusPatchIgnored(dir: Directory<Json>, f: string, key: Key, status: Json, decodes: Json -> bool)
    requires UniqueKeys(DOCUMENTS, dir) && Holds(DOCUMENTS, dir, f, key)
    requires StatusFree(dir[f].doc) && dir[f].doc.Object?
    ensures Patched(dir, key, Merging(Object(map["status" := status]), decodes)) == dir
  {
    var doc, patch := dir[f].doc, Object(map["status" := status]);
    PatchedAt(dir, f, key, Merging(patch, decodes));
    assert StripStatus(MergePatch(doc, patch)).fields == doc.fields;
  }

  lemma StripThenMerge(doc: Json, patch: Json)
    requires doc.Object? && patch.Object?
    ensures StripStatus(MergePatch(StripStatus(doc), patch)) == StripStatus(MergePatch(doc, patch))
  {
  }

  /** Any merge patch, even one that renames the resource or that does not apply, does in two successive transactions
      what it does in one. */
  lemma MergeTwiceIsOnce(dir: Directory<Json>, key: Key, patch: Json, decodes: Json -> bool)
    requires UniqueKeys(DOCUMENTS, dir)
    ensures var once := Patched(dir, key, Merging(patch, decodes));
            Patched(once, key, Merging(patch, decodes)) == once
  {
    var p := Merging(patch, decodes);
    if f :| Holds(DOCUMENTS, dir, f, key) {
      PatchedAt(dir, f, key, p);
      if p(dir[f].doc).Some? {
        MergeAgain(dir, f, key, patch, decodes);
      }
    } else {
      PatchedAbsent(dir, key, p);
    }
  }

  /** What a merge patch in the store does to one path of the document: a value the patch gives stands there, where it
      says null there is nothing, and where it does not go everything is as before; it applies exactly when the result
      decodes. */
  lemma MergePatched(dir: Directory<Json>, f: string, key: Key, patch: Json, decodes: Json -> bool, path: seq<string>)
    requires UniqueKeys(DOCUMENTS, dir) && Holds(DOCUMENTS, dir, f, key) && patch.Object?
    requires path != [] && path[0] != "status"
    ensures var after := Patched(dir, key, Merging(patch, decodes));
            && after - {f} == dir - {f} && f in after && after[f].Resource?
            && if decodes(MergePatch(dir[f].doc, patch)) then
                 && (Given(patch, path) ==> At(after[f].doc, path) == At(patch, path))
                 && (At(patch, path) == Some(Json.Null) ==> At(after[f].doc, path) == None)
                 && (LeadsAway(patch, path) ==> At(after[f].doc, path) == At(dir[f].doc, path))
               else after == dir
  {
    PatchedAt(dir, f, key, Merging(patch, decodes));
    StripKeepsPath(MergePatch(dir[f].doc, patch), path);
    MergedPath(dir[f].doc, patch, path);
  }

  lemma MergedPath(doc: Json, patch: Json, path: seq<string>)
    requires path != []
    ensures Given(patch, path) ==> At(MergePatch(doc, patch), path) == At(patch, path)
    ensures At(patch, path) == Some(Json.Null) ==> At(MergePatch(doc, patch), path) == None
    ensures LeadsAway(patch, path) ==> At(MergePatch(doc, patch), path) == At(doc, path)
  {
    if Given(patch, path) {
      MergeSets(doc, patch, path);
    }
    if At(patch, path) == Some(Json.Null) {
      MergeRemoves(doc, patch, path);
    }
    if LeadsAway(patch, path) {
      MergeKeeps(doc, patch, path);
    }
  }

  lemma MergeAgain(dir: Directory<Json>, f: string, key: Key, patch: Json, decodes: Json -> bool)
    requires OnlyAt(dir, f, key) && Holds(DOCUMENTS, dir, f, key)
    requires MergePatch(dir[f].doc, patch).Object?
    ensures var after := dir[f := Resource(StripStatus(MergePatch(dir[f].doc, patch)))];
            Patched(after, key, Merging(patch, decodes)) == after
  {
    var merged := MergePatch(dir[f].doc, patch);
    var after, p := dir[f := Resource(StripStatus(merged))], Merging(patch, decodes);
    forall g
      ensures Holds(DOCUMENTS, after, g, key) <==> g == f && KeyOfDoc(StripStatus(merged)) == key
    {
      assert g != f ==> !Holds(DOCUMENTS, dir, g, key);
    }
    if KeyOfDoc(StripStatus(merged)) == key {
      PatchedAt(after, f, key, p);
      if p(StripStatus(merged)).Some? {
        MergeIdempotent(dir[f].doc, patch);
        StripThenMerge(merged, patch);
      }
    } else {
      PatchedAbsent(after, key, p);
    }
  }

  // ---- Rollback ----

  const TEMPLATE := ["spec", "template"]
  const IGNORED := {"pod-template-hash", "rollouts-pod-template-hash"}

  /** The template of the target revision without the labels the controllers add to tell revisions apart. */
  function RollbackTemplate(template: Json): Json {
    var metadata := Field(template, "metadata");
    var labels := Field(metadata, "labels");
    if !labels.Object? then template
    else Object(template.fields["metadata" :=
                  Object(metadata.fields["labels" := Object(labels.fields - IGNORED)])])
  }

  lemma {:induction false} AtAppend(j: Json, p: seq<string>, q: seq<string>)
    ensures At(j, p + q) == if At(j, p).Some? then At(At(j, p).value, q) else None
  {
    if p == [] {
      assert p + q == q;
    } else if j.Object? && p[0] in j.fields {
      assert (p + q)[1..] == p[1..] + q;
      AtAppend(j.fields[p[0]], p[1..], q);
    }
  }

  /** The two labels are gone from the template, and every path that leads elsewhere reads as before. */
  ghost predicate Unlabelled(template: Json, cleaned: Json) {
    && At(cleaned, ["metadata", "labels", "pod-template-hash"]) == None
    && At(cleaned, ["metadata", "labels", "rollouts-pod-template-hash"]) == None
    && forall path :: Diverge(["metadata", "labels", "pod-template-hash"], path) &&
                      Diverge(["metadata", "labels", "rollouts-pod-template-hash"], path) ==>
         At(cleaned, path) == At(template, path)
  }

  lemma AtTwo(j: Json, a: string, b: string)
    ensures At(j, [a, b]) ==
            if j.Object? && a in j.fields && j.fields[a].Object? && b in j.fields[a].fields
            then Some(j.fields[a].fields[b]) else None
  {
    assert [a, b][1..] == [b] && [b][1..] == [];
    assert forall k: Json :: At(k, []) == Some(k);
  }

  /** The labels of a template, if there are any. */
  function LabelsOf(template: Json): Option<Json> {
    At(template, ["metadata", "labels"])
  }

  lemma CleanedLabels(template: Json)
    ensures LabelsOf(RollbackTemplate(template)) ==
            match LabelsOf(template)
            case None => None
            case Some(labels) => Some(if labels.Object? then Object(labels.fields - IGNORED) else labels)
  {
    AtTwo(template, "metadata", "labels");
    AtTwo(RollbackTemplate(template), "metadata", "labels");
  }

  lemma BelowLabels(j: Json, rest: seq<string>)
    ensures At(j, ["metadata", "labels"] + rest) ==
            if LabelsOf(j).Some? then At(LabelsOf(j).value, rest) else None
  {
    AtAppend(j, ["metadata", "labels"], rest);
  }

  lemma LabelsGone(template: Json, hash: string)
    requires hash in IGNORED
    ensures At(RollbackTemplate(template), ["metadata", "labels", hash]) == None
  {
    assert ["metadata", "labels", hash] == ["metadata", "labels"] + [hash];
    BelowLabels(RollbackTemplate(template), [hash]);
    CleanedLabels(template);
  }

  lemma ElsewhereKept(template: Json, path: seq<string>)
    requires Diverge(["metadata", "labels", "pod-template-hash"], path)
    requires Diverge(["metadata", "labels", "rollouts-pod-template-hash"], path)
    ensures At(RollbackTemplate(template), path) == At(template, path)
  {
    if path[0] == "metadata" {
      var rest := path[1..];
      if rest[0] == "labels" {
        assert path == ["metadata", "labels"] + path[2..];
        assert path[2] !in IGNORED;
        BelowLabels(template, path[2..]);
        BelowLabels(RollbackTemplate(template), path[2..]);
        CleanedLabels(template);
      } else if LabelsOf(template).Some? {
        AtTwo(template, "metadata", "labels");
        assert At(template, path) == At(template.fields["metadata"], rest);
        assert At(RollbackTemplate(template), path) == At(RollbackTemplate(template).fields["metadata"], rest);
      } else {
        AtTwo(template, "metadata", "labels");
      }
    }
  }

  lemma TemplateCleaned(template: Json)
    ensures Unlabelled(template, RollbackTemplate(template))
  {
    LabelsGone(template, "pod-template-hash");
    LabelsGone(template, "rollouts-pod-template-hash");
    forall path | Diverge(["metadata", "labels", "pod-template-hash"], path) &&
                  Diverge(["metadata", "labels", "rollouts-pod-template-hash"], path)
      ensures At(RollbackTemplate(template), path) == At(template, path)
    {
      ElsewhereKept(template, path);
    }
  }

  /** Rolling back succeeds exactly on a manifest with a template whose replacement decodes. Then spec.template is the
      target revision's template without the two labels the controllers add, and, but for a dropped status, nothing else
      in the manifest changes; otherwise no file changes at all. */
  lemma RollbackFrame(dir: Directory<Json>, f: string, key: Key, template: Json, decodes: Json -> bool,
                      path: seq<string>)
    requires UniqueKeys(DOCUMENTS, dir) && Holds(DOCUMENTS, dir, f, key)
    ensures var doc, value := dir[f].doc, RollbackTemplate(template);
            var patch, replaced := Replacing(TEMPLATE, value, decodes), Replace(doc, TEMPLATE, value);
            var after, error := Patched(dir, key, patch), PatchEffect(DOCUMENTS, Yamls(dir), key, patch).error;
            && Unlabelled(template, value)
            && (replaced.Some? <==> At(doc, ["spec", "template"]).Some?)
            && (error.None? <==> replaced.Some? && decodes(replaced.value))
            && if replaced.Some? && decodes(replaced.value) then
                 var d := StripStatus(replaced.value);
                 && after == dir[f := Resource(d)]
                 && At(d, ["spec", "template"]) == Some(value)
                 && (Diverge(["spec", "template"], path) && path[0] != "status" ==> At(d, path) == At(doc, path))
               else after == dir
  {
    var doc, value := dir[f].doc, RollbackTemplate(template);
    TemplateCleaned(template);
    PatchedAt(dir, f, key, Replacing(TEMPLATE, value, decodes));
    ReplaceAt(doc, TEMPLATE, value);
    var replaced := Replace(doc, TEMPLATE, value);
    if replaced.Some? {
      StripKeepsPath(replaced.value, TEMPLATE);
      if Diverge(TEMPLATE, path) && path[0] != "status" {
        ReplaceFrame(doc, TEMPLATE, value, path);
        StripKeepsPath(replaced.value, path);
      }
    }
  }

  /** The same seen in the file: in the manifest after a successful rollback neither label is left in the template, and
      any path below it that leads elsewhere reads as in the target revision. */
  lemma RolledBack(dir: Directory<Json>, f: string, key: Key, template: Json, decodes: Json -> bool, path: seq<string>)
    requires UniqueKeys(DOCUMENTS, dir) && Holds(DOCUMENTS, dir, f, key)
    requires PatchEffect(DOCUMENTS, Yamls(dir), key,
                         Replacing(TEMPLATE, RollbackTemplate(template), decodes)).error.None?
    ensures var after := Patched(dir, key, Replacing(TEMPLATE, RollbackTemplate(template), decodes));
            && f in after && after[f].Resource?
            && At(after[f].doc, ["spec", "template", "metadata", "labels", "pod-template-hash"]) == None
            && At(after[f].doc, ["spec", "template", "metadata", "labels", "rollouts-pod-template-hash"]) == None
            && (Diverge(["metadata", "labels", "pod-template-hash"], path) &&
                Diverge(["metadata", "labels", "rollouts-pod-template-hash"], path) ==>
                  At(after[f].doc, ["spec", "template"] + path) == At(template, path))
  {
    var after := Patched(dir, key, Replacing(TEMPLATE, RollbackTemplate(template), decodes));
    RollbackFrame(dir, f, key, template, decodes, path);
    BelowTemplate(after[f].doc, template, RollbackTemplate(template), path);
  }

  lemma BelowTemplate(doc: Json, template: Json, cleaned: Json, path: seq<string>)
    requires At(doc, ["spec", "template"]) == Some(cleaned) && Unlabelled(template, cleaned)
    ensures At(doc, ["spec", "template", "metadata", "labels", "pod-template-hash"]) == None
    ensures At(doc, ["spec", "template", "metadata", "labels", "rollouts-pod-template-hash"]) == None
    ensures Diverge(["metadata", "labels", "pod-template-hash"], path) &&
            Diverge(["metadata", "labels", "rollouts-pod-template-hash"], path) ==>
              At(doc, ["spec", "template"] + path) == At(template, path)
  {
    var a, b := ["metadata", "labels", "pod-template-hash"], ["metadata", "labels", "rollouts-pod-template-hash"];
    AtAppend(doc, ["spec", "template"], a);
    AtAppend(doc, ["spec", "template"], b);
    AtAppend(doc, ["spec", "template"], path);
    assert ["spec", "template"] + a == ["spec", "template", "metadata", "labels", "pod-template-hash"];
    assert ["spec", "template"] + b == ["spec", "template", "metadata", "labels", "rollouts-pod-template-hash"];
  }

  lemma StripKeepsPath(doc: Json, path: seq<string>)
    requires doc.Object? && path != [] && path[0] != "status"
    ensures At(StripStatus(doc), path) == At(doc, path)
  {
  }
}
