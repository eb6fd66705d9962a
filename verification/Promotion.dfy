/** Promoting an Argo rollout (pkg/apps/application/deploy_strategy_ctrl.go): the patches chosen from the live
    rollout, and the two ways the API server may apply them. */
module Promotion {
  import opened Wrappers
  import opened Json

  /** What the promotion code reads of a live rollout. `steps` is None for a rollout that is not a canary. */
  datatype View = View(
    paused: bool,
    pauseConditions: nat,
    steps: Option<nat>,
    stepIndex: Option<int>,
    promoteFull: bool,
    podHash: Json,
    stableRS: Json)

  function Length(j: Json): nat {
    if j.Array? then |j.items| else 0
  }

  /** The decoded rollout; an absent boolean reads as false, an absent list as empty. */
  function ViewOf(doc: Json): View {
    ViewFrom(Field(doc, "spec"), Field(doc, "status"))
  }

  function ViewFrom(spec: Json, status: Json): View {
    var canary := Field(Field(spec, "strategy"), "canary");
    var index := Field(status, "currentStepIndex");
    View(
      Field(spec, "paused") == Bool(true),
      Length(Field(status, "pauseConditions")),
      if canary.Null? then None else Some(Length(Field(canary, "steps"))),
      if index.Number? then Some(index.n) else None,
      Field(status, "promoteFull") == Bool(true),
      Field(status, "currentPodHash"),
      Field(status, "stableRS"))
  }

  const UNPAUSE := Object(map["spec" := Object(map["paused" := Bool(false)])])
  const CLEAR_PAUSE := Object(map["status" := Object(map["pauseConditions" := Null])])
  const UNPAUSE_AND_CLEAR := Object(map["spec" := Object(map["paused" := Bool(false)]),
                                        "status" := Object(map["pauseConditions" := Null])])
  const PROMOTE_FULL := Object(map["status" := Object(map["promoteFull" := Bool(true)])])

  function ClearPauseWithStep(index: int): Json {
    Object(map["status" := Object(map["pauseConditions" := Null, "currentStepIndex" := Number(index)])])
  }

  function UnpauseAndClearWithStep(index: int): Json {
    Object(map["spec" := Object(map["paused" := Bool(false)]),
               "status" := Object(map["pauseConditions" := Null, "currentStepIndex" := Number(index)])])
  }

  /** The index GetCurrentCanaryStep reports: None without canary steps, 0 when the status has none. */
  function CurrentStepIndex(v: View): Option<int> {
    if v.steps.None? || v.steps.value == 0 then None
    else Some(if v.stepIndex.Some? then v.stepIndex.value else 0)
  }

  datatype Patches = Patches(spec: Option<Json>, status: Option<Json>, unified: Option<Json>)

  function GetPatches(v: View, full: bool): Patches {
    if full then
      Patches(None, if v.podHash != v.stableRS then Some(PROMOTE_FULL) else None, None)
    else
      var spec := if v.paused then Some(UNPAUSE) else None;
      var index := CurrentStepIndex(v);
      if v.pauseConditions > 0 then
        Patches(spec, Some(CLEAR_PAUSE), Some(UNPAUSE_AND_CLEAR))
      else if index.Some? then
        var next := if index.value < v.steps.value then index.value + 1 else index.value;
        Patches(spec, Some(ClearPauseWithStep(next)), Some(UnpauseAndClearWithStep(next)))
      else
        Patches(spec, None, Some(UNPAUSE_AND_CLEAR))
  }

  /** `doc` with its top-level status taken from `from`. */
  function WithStatusOf(doc: Json, from: Json): Json {
    var rest := Members(doc) - {"status"};
    Object(if "status" in Members(from) then rest["status" := from.fields["status"]] else rest)
  }

  /** What PromoteRollout leaves in the cluster. */
  function Promoted(doc: Json, statusSubresource: bool, full: bool): Json {
    var p := GetPatches(ViewOf(doc), full);
    if statusSubresource then
      var first := if p.status.Some? then WithStatusOf(doc, MergePatch(doc, p.status.value)) else doc;
      if p.spec.Some? then WithStatusOf(MergePatch(first, p.spec.value), first) else first
    else
      var second := if p.status.Some? then p.unified else p.spec;
      if second.Some? then MergePatch(doc, second.value) else doc
  }

  datatype Outcome = Ok | NotFound

  /** The member is the same before and after. */
  ghost predicate KeptAt(before: Json, after: Json, name: string) {
    && (name in Members(before) <==> name in Members(after))
    && (name in Members(before) ==> Members(after)[name] == Members(before)[name])
  }

  /** The member became what the merge patch makes of it. */
  ghost predicate MergedAt(before: Json, patch: Json, after: Json, name: string)
    requires patch.Object?
  {
    if name !in patch.fields then KeptAt(before, after, name)
    else if patch.fields[name].Null? then name !in Members(after)
    else name in Members(after) && Members(after)[name] == MergePatch(Field(before, name), patch.fields[name])
  }

  /** An object is what its members are. */
  lemma SameMembers(a: Json, b: Json)
    requires a.Object? && b.Object? && forall name :: KeptAt(a, b, name)
    ensures a == b
  {
    forall name
      ensures name in a.fields <==> name in b.fields
      ensures name in a.fields ==> a.fields[name] == b.fields[name]
    {
      assert KeptAt(a, b, name);
    }
  }

  /** A write to the status endpoint is determined by what becomes of the status and by everything else staying. */
  lemma StatusOnly(before: Json, patch: Json, after: Json)
    requires patch.Object? && after.Object? && MergedAt(before, patch, after, "status")
    requires forall name :: name != "status" ==> KeptAt(before, after, name)
    ensures after == WithStatusOf(before, MergePatch(before, patch))
  {
    var written := WithStatusOf(before, MergePatch(before, patch));
    forall name
      ensures KeptAt(after, written, name)
    {
      if name != "status" {
        assert KeptAt(before, after, name);
      }
    }
    SameMembers(after, written);
  }

  lemma AllButStatus(before: Json, patch: Json, after: Json)
    requires patch.Object? && after.Object? && KeptAt(before, after, "status")
    requires forall name :: name != "status" ==> MergedAt(before, patch, after, name)
    ensures after == WithStatusOf(MergePatch(before, patch), before)
  {
    var written := WithStatusOf(MergePatch(before, patch), before);
    forall name
      ensures KeptAt(after, written, name)
    {
      if name != "status" {
        assert MergedAt(before, patch, after, name);
      }
    }
    SameMembers(after, written);
  }

  lemma Everything(before: Json, patch: Json, after: Json)
    requires patch.Object? && after.Object? && forall name :: MergedAt(before, patch, after, name)
    ensures after == MergePatch(before, patch)
  {
    var merged := MergePatch(before, patch);
    forall name
      ensures KeptAt(after, merged, name)
    {
      assert MergedAt(before, patch, after, name);
    }
    SameMembers(after, merged);
  }

  /** A live rollout behind the API server. With the status subresource (Rollouts v0.10+) the status endpoint writes
      only the status and the main endpoint everything else; without it (v0.9) there is no status endpoint. */
  class LiveRollout {
    var doc: Json
    const statusSubresource: bool

    constructor (doc: Json, statusSubresource: bool)
      ensures this.doc == doc && this.statusSubresource == statusSubresource
    {
      this.doc := doc;
      this.statusSubresource := statusSubresource;
    }

    /** The status endpoint: whatever the patch says of other members, only the status changes. */
    method PatchStatus(patch: Json) returns (r: Outcome)
      requires patch.Object?
      modifies this`doc
      ensures r.Ok? <==> statusSubresource
      ensures r.NotFound? ==> doc == old(doc)
      ensures r.Ok? ==> doc.Object? && MergedAt(old(doc), patch, doc, "status")
      ensures forall name :: name != "status" ==> KeptAt(old(doc), doc, name)
    {
      if !statusSubresource {
        return NotFound;
      }
      doc := WithStatusOf(doc, MergePatch(doc, patch));
      r := Ok;
    }

    /** The main endpoint: where the status has an endpoint of its own, it cannot be changed here. */
    method Patch(patch: Json)
      requires patch.Object?
      modifies this`doc
      ensures doc.Object?
      ensures forall name :: name != "status" ==> MergedAt(old(doc), patch, doc, name)
      ensures if statusSubresource then KeptAt(old(doc), doc, "status") else MergedAt(old(doc), patch, doc, "status")
    {
      var merged := MergePatch(doc, patch);
      doc := if statusSubresource then WithStatusOf(merged, doc) else merged;
    }

    method PromoteRollout(full: bool)
      modifies this
      ensures doc == Promoted(old(doc), statusSubresource, full)
    {
      var patches := GetPatches(ViewOf(doc), full);
      var specPatch := patches.spec;
      if patches.status.Some? {
        ghost var before := doc;
        var r := PatchStatus(patches.status.value);
        if r.NotFound? {
          specPatch := patches.unified;
        } else {
          StatusOnly(before, patches.status.value, doc);
        }
      }
      if specPatch.Some? {
        ghost var before := doc;
        Patch(specPatch.value);
        if statusSubresource {
          AllButStatus(before, specPatch.value, doc);
        } else {
          assert forall name :: MergedAt(before, specPatch.value, doc, name);
          Everything(before, specPatch.value, doc);
        }
      }
    }
  }

  /** The abstract step a non-full promote takes. */
  function Advance(v: View): View {
    var index := CurrentStepIndex(v);
    if v.pauseConditions > 0 then v.(paused := false, pauseConditions := 0)
    else if index.Some? && index.value < v.steps.value then v.(paused := false, stepIndex := Some(index.value + 1))
    else if index.Some? then v.(paused := false, stepIndex := index)
    else v.(paused := false)
  }

  /** Where a member goes under a merge patch that sets it to a non-null value, or does not mention it. */
  lemma MergedField(target: Json, patch: Json, name: string)
    requires patch.Object?
    ensures name in patch.fields && !patch.fields[name].Null? ==>
              Field(MergePatch(target, patch), name) == MergePatch(Field(target, name), patch.fields[name])
    ensures name in patch.fields && patch.fields[name].Null? ==> Field(MergePatch(target, patch), name) == Null
    ensures name !in patch.fields ==> Field(MergePatch(target, patch), name) == Field(target, name)
  {
  }

  lemma UnpausedSpec(spec: Json, status: Json)
    ensures ViewFrom(MergePatch(spec, UNPAUSE.fields["spec"]), status) == ViewFrom(spec, status).(paused := false)
  {
  }

  lemma ClearedStatus(spec: Json, status: Json)
    ensures ViewFrom(spec, MergePatch(status, CLEAR_PAUSE.fields["status"])) ==
            ViewFrom(spec, status).(pauseConditions := 0)
  {
  }

  lemma SteppedStatus(spec: Json, status: Json, index: int)
    ensures ViewFrom(spec, MergePatch(status, ClearPauseWithStep(index).fields["status"])) ==
            ViewFrom(spec, status).(pauseConditions := 0, stepIndex := Some(index))
  {
    var p := ClearPauseWithStep(index).fields["status"];
    MergedField(status, p, "pauseConditions");
    MergedField(status, p, "currentStepIndex");
    MergedField(status, p, "promoteFull");
    MergedField(status, p, "currentPodHash");
    MergedField(status, p, "stableRS");
  }

  lemma FullStatus(spec: Json, status: Json)
    ensures ViewFrom(spec, MergePatch(status, PROMOTE_FULL.fields["status"])) ==
            ViewFrom(spec, status).(promoteFull := true)
  {
  }

  function SpecPatch(p: Json): Json { Object(map["spec" := p]) }

  function StatusPatch(p: Json): Json { Object(map["status" := p]) }

  function UnifiedPatch(spec: Json, status: Json): Json { Object(map["spec" := spec, "status" := status]) }

  lemma StatusWrite(doc: Json, p: Json)
    requires p.Object?
    ensures var d := WithStatusOf(doc, MergePatch(doc, StatusPatch(p)));
            Field(d, "spec") == Field(doc, "spec") && Field(d, "status") == MergePatch(Field(doc, "status"), p)
  {
  }

  lemma SpecWrite(doc: Json, p: Json, statusSubresource: bool)
    requires p.Object?
    ensures var merged := MergePatch(doc, SpecPatch(p));
            var d := if statusSubresource then WithStatusOf(merged, doc) else merged;
            Field(d, "spec") == MergePatch(Field(doc, "spec"), p) && Field(d, "status") == Field(doc, "status")
  {
  }

  lemma UnifiedWrite(doc: Json, spec: Json, status: Json)
    requires spec.Object? && status.Object?
    ensures var d := MergePatch(doc, UnifiedPatch(spec, status));
            Field(d, "spec") == MergePatch(Field(doc, "spec"), spec) &&
            Field(d, "status") == MergePatch(Field(doc, "status"), status)
  {
  }

  /** The step after the current one, the last step for itself. */
  function NextIndex(v: View): int
    requires CurrentStepIndex(v).Some?
  {
    var index := CurrentStepIndex(v).value;
    if index < v.steps.value then index + 1 else index
  }

  /** The status half of a non-full promote, when there is one. */
  function StatusHalf(v: View): Option<Json> {
    if v.pauseConditions > 0 then Some(CLEAR_PAUSE.fields["status"])
    else if CurrentStepIndex(v).Some? then Some(ClearPauseWithStep(NextIndex(v)).fields["status"])
    else None
  }

  lemma StatusHalfSteps(spec: Json, status: Json)
    ensures var v := ViewFrom(spec, status);
            var half := StatusHalf(v);
            if half.Some? then half.value.Object? &&
              ViewFrom(spec, MergePatch(status, half.value)).(paused := false) == Advance(v)
            else v.(paused := false) == Advance(v)
  {
    var v := ViewFrom(spec, status);
    var half := StatusHalf(v);
    StatusHalfView(v);
    if half.Some? {
      if v.pauseConditions > 0 {
        ClearedStatus(spec, status);
      } else {
        SteppedStatus(spec, status, NextIndex(v));
      }
    }
  }

  /** The step the status patch stands for. */
  lemma StatusHalfView(v: View)
    ensures Advance(v) ==
            if v.pauseConditions > 0 then v.(pauseConditions := 0, paused := false)
            else if CurrentStepIndex(v).Some? then
              v.(pauseConditions := 0, stepIndex := Some(NextIndex(v)), paused := false)
            else v.(paused := false)
  {
  }

  lemma SubresourcePath(doc: Json)
    ensures ViewOf(Promoted(doc, true, false)) == Advance(ViewOf(doc))
  {
    var v := ViewOf(doc);
    var spec, status, half := Field(doc, "spec"), Field(doc, "status"), StatusHalf(v);
    StatusHalfSteps(spec, status);
    var p := GetPatches(v, false);
    assert p.status == if half.Some? then Some(StatusPatch(half.value)) else None;
    if half.Some? {
      StatusWrite(doc, half.value);
    }
    var first := if half.Some? then WithStatusOf(doc, MergePatch(doc, StatusPatch(half.value))) else doc;
    if v.paused {
      SpecWrite(first, UNPAUSE.fields["spec"], true);
      UnpausedSpec(spec, Field(first, "status"));
      assert UNPAUSE == SpecPatch(UNPAUSE.fields["spec"]);
    }
  }

  lemma UnifiedPath(doc: Json)
    ensures ViewOf(Promoted(doc, false, false)) == Advance(ViewOf(doc))
  {
    var v := ViewOf(doc);
    var spec, status, half := Field(doc, "spec"), Field(doc, "status"), StatusHalf(v);
    StatusHalfSteps(spec, status);
    var unpause := UNPAUSE.fields["spec"];
    var p := GetPatches(v, false);
    if half.Some? {
      assert p.unified == Some(UnifiedPatch(unpause, half.value));
      UnifiedWrite(doc, unpause, half.value);
      UnpausedSpec(spec, MergePatch(status, half.value));
    } else if v.paused {
      SpecWrite(doc, unpause, false);
      UnpausedSpec(spec, status);
    }
  }

  /** Both paths take the same step: patching the status and then the spec, or one unified patch. */
  lemma PathsAgree(doc: Json)
    ensures ViewOf(Promoted(doc, true, false)) == Advance(ViewOf(doc)) == ViewOf(Promoted(doc, false, false))
  {
    SubresourcePath(doc);
    UnifiedPath(doc);
  }

  /** Unpaused and without pause conditions; and only where there were none before, a canary with steps is at the next
      one, at most at the end. */
  predicate OnePromoteOn(v: View, w: View) {
    && !w.paused && w.pauseConditions == 0
    && w.steps == v.steps && w.promoteFull == v.promoteFull && w.podHash == v.podHash && w.stableRS == v.stableRS
    && w.stepIndex ==
       if v.pauseConditions > 0 || v.steps.None? || v.steps.value == 0 then v.stepIndex
       else
         var k := if v.stepIndex.Some? then v.stepIndex.value else 0;
         Some(if k < v.steps.value then k + 1 else k)
  }

  lemma AdvanceIsOneOn(v: View)
    ensures OnePromoteOn(v, Advance(v))
  {
  }

  /** What a promote that is not full does to any rollout, canary with steps or not, by either path. */
  lemma PromoteMeans(doc: Json, statusSubresource: bool)
    ensures OnePromoteOn(ViewOf(doc), ViewOf(Promoted(doc, statusSubresource, false)))
  {
    PathsAgree(doc);
    AdvanceIsOneOn(ViewOf(doc));
  }

  predicate HasItems(j: Json) {
    j.Array? && j.items != []
  }

  /** The same told from the documents. */
  lemma PromotedDocument(doc: Json, statusSubresource: bool)
    ensures var after := Promoted(doc, statusSubresource, false);
            var status, status' := Field(doc, "status"), Field(after, "status");
            var steps := Field(Field(Field(Field(doc, "spec"), "strategy"), "canary"), "steps");
            var index, index' := Field(status, "currentStepIndex"), Field(status', "currentStepIndex");
            && Field(Field(after, "spec"), "paused") != Bool(true)
            && !HasItems(Field(status', "pauseConditions"))
            && if HasItems(steps) && !HasItems(Field(status, "pauseConditions")) then
                 var k := if index.Number? then index.n else 0;
                 index' == Number(if k < |steps.items| then k + 1 else k)
               else (index.Number? <==> index'.Number?) && (index.Number? ==> index' == index)
  {
    PromoteMeans(doc, statusSubresource);
  }

  /** A full promote takes effect only behind the status subresource: on v0.9 the fallback patch it would need was
      never built, so the request succeeds and changes nothing. */
  lemma FullPromote(doc: Json, statusSubresource: bool)
    ensures var v, after := ViewOf(doc), Promoted(doc, statusSubresource, true);
            && ViewOf(after).promoteFull == (v.promoteFull || (statusSubresource && v.podHash != v.stableRS))
            && ViewOf(after) == v.(promoteFull := ViewOf(after).promoteFull)
            && (!statusSubresource ==> after == doc)
  {
    StatusWrite(doc, PROMOTE_FULL.fields["status"]);
    FullStatus(Field(doc, "spec"), Field(doc, "status"));
  }

  /** The cluster after `count` non-full promotes with the controller idle. */
  function Promotes(doc: Json, statusSubresource: bool, count: nat): Json
    decreases count
  {
    if count == 0 then doc else Promotes(Promoted(doc, statusSubresource, false), statusSubresource, count - 1)
  }

  function Min(a: int, b: int): int {
    if a < b then a else b
  }

  function Held(v: View): nat {
    if v.pauseConditions > 0 then 1 else 0
  }

  /** The canary's index lies within its steps, of which there is at least one. */
  ghost predicate Stepping(v: View) {
    CurrentStepIndex(v).Some? && 0 <= CurrentStepIndex(v).value <= v.steps.value
  }

  ghost predicate Standing(v: View, index: int) {
    CurrentStepIndex(v) == Some(index) && !v.paused && v.pauseConditions == 0
  }

  /** Twice the steps left, plus one while pause conditions hold. */
  function Remaining(v: View): int {
    match CurrentStepIndex(v)
    case None => 0
    case Some(k) => 2 * (v.steps.value - k) + Held(v)
  }

  /** A promote clears pause conditions or advances the index, never both; the measure falls until it is zero, and
      from there on a further promote changes nothing but a stray pause flag. */
  lemma PromoteProgress(doc: Json, statusSubresource: bool)
    requires Stepping(ViewOf(doc))
    ensures var v, w := ViewOf(doc), ViewOf(Promoted(doc, statusSubresource, false));
            && Stepping(w)
            && (Remaining(v) > 0 ==>
                  && Remaining(w) < Remaining(v)
                  && Standing(w, CurrentStepIndex(v).value + 1 - Held(v)))
            && (Remaining(v) == 0 ==> w == v.(paused := false))
  {
    PathsAgree(doc);
    ProgressOfStep(ViewOf(doc));
  }

  lemma ProgressOfStep(v: View)
    requires Stepping(v)
    ensures var w := Advance(v);
            && Stepping(w) && w.steps == v.steps
            && (Remaining(v) > 0 ==>
                  && Remaining(w) < Remaining(v)
                  && Standing(w, CurrentStepIndex(v).value + 1 - Held(v)))
            && (Remaining(v) == 0 ==> w == v.(paused := false))
  {
  }

  function Advances(v: View, count: nat): View
    decreases count
  {
    if count == 0 then v else Advances(Advance(v), count - 1)
  }

  lemma {:induction false} PromotesAdvance(doc: Json, statusSubresource: bool, count: nat)
    ensures ViewOf(Promotes(doc, statusSubresource, count)) == Advances(ViewOf(doc), count)
    decreases count
  {
    if count > 0 {
      PathsAgree(doc);
      PromotesAdvance(Promoted(doc, statusSubresource, false), statusSubresource, count - 1);
    }
  }

  /** `w` stands where `count` promotes take `v`. */
  ghost predicate StandsAfter(v: View, w: View, count: nat) {
    Stepping(v) && Standing(w, Min(v.steps.value, CurrentStepIndex(v).value + count - Held(v)))
  }

  lemma {:induction false} AdvancesStand(v: View, w: View, count: nat)
    requires Stepping(v) && count > 0 && w == Advances(v, count)
    ensures StandsAfter(v, w, count)
    decreases count
  {
    ProgressOfStep(v);
    if count > 1 {
      AdvancesStand(Advance(v), w, count - 1);
    } else {
      assert Advances(Advance(v), 0) == Advance(v);
    }
  }

  /** Where a canary stands after any number of promotes: one promote clears the pause conditions if there were any,
      every other one advances by exactly one step, and the last step is never passed. So as many promotes as steps
      are left, plus one when pause conditions hold, are exactly enough to finish. */
  lemma PromotesStand(doc: Json, statusSubresource: bool, count: nat)
    requires Stepping(ViewOf(doc)) && count > 0
    ensures StandsAfter(ViewOf(doc), ViewOf(Promotes(doc, statusSubresource, count)), count)
  {
    PromotesAdvance(doc, statusSubresource, count);
    AdvancesStand(ViewOf(doc), ViewOf(Promotes(doc, statusSubresource, count)), count);
  }

  /** What is left of `doc` when the three members promotion may write are set aside. */
  function Bystanders(doc: Json): (map<string, Json>, map<string, Json>, map<string, Json>) {
    (Members(doc) - {"spec", "status"},
     Members(Field(doc, "spec")) - {"paused"},
     Members(Field(doc, "status")) - {"pauseConditions", "currentStepIndex", "promoteFull"})
  }

  lemma PatchBystanders(j: Json, patch: Json, touched: set<string>)
    requires patch.Object? && patch.fields.Keys <= touched
    ensures Members(MergePatch(j, patch)) - touched == Members(j) - touched
  {
  }

  lemma StatusWriteBystanders(doc: Json, p: Json)
    requires p.Object? && p.fields.Keys <= {"pauseConditions", "currentStepIndex", "promoteFull"}
    ensures Bystanders(WithStatusOf(doc, MergePatch(doc, StatusPatch(p)))) == Bystanders(doc)
  {
    var d := WithStatusOf(doc, MergePatch(doc, StatusPatch(p)));
    StatusWrite(doc, p);
    PatchBystanders(Field(doc, "status"), p, {"pauseConditions", "currentStepIndex", "promoteFull"});
    assert Members(d) - {"spec", "status"} == Members(doc) - {"spec", "status"};
  }

  lemma SpecWriteBystanders(doc: Json, statusSubresource: bool)
    ensures var merged := MergePatch(doc, UNPAUSE);
            Bystanders(if statusSubresource then WithStatusOf(merged, doc) else merged) == Bystanders(doc)
  {
    var merged := MergePatch(doc, UNPAUSE);
    var d := if statusSubresource then WithStatusOf(merged, doc) else merged;
    var p := UNPAUSE.fields["spec"];
    assert UNPAUSE == SpecPatch(p);
    SpecWrite(doc, p, statusSubresource);
    PatchBystanders(Field(doc, "spec"), p, {"paused"});
    PatchBystanders(doc, UNPAUSE, {"spec", "status"});
    assert Members(d) - {"spec", "status"} == Members(doc) - {"spec", "status"};
  }

  lemma UnifiedWriteBystanders(doc: Json, p: Json)
    requires p.Object? && p.fields.Keys <= {"pauseConditions", "currentStepIndex", "promoteFull"}
    ensures Bystanders(MergePatch(doc, UnifiedPatch(UNPAUSE.fields["spec"], p))) == Bystanders(doc)
  {
    var u := UNPAUSE.fields["spec"];
    UnifiedWrite(doc, u, p);
    PatchBystanders(Field(doc, "spec"), u, {"paused"});
    PatchBystanders(Field(doc, "status"), p, {"pauseConditions", "currentStepIndex", "promoteFull"});
    PatchBystanders(doc, UnifiedPatch(u, p), {"spec", "status"});
  }

  lemma SubresourceFrame(doc: Json, full: bool)
    ensures Bystanders(Promoted(doc, true, full)) == Bystanders(doc)
  {
    var v := ViewOf(doc);
    var half := if full then Some(PROMOTE_FULL.fields["status"]) else StatusHalf(v);
    var p := GetPatches(v, full);
    assert !full ==> p.status == if half.Some? then Some(StatusPatch(half.value)) else None;
    if half.Some? {
      StatusWriteBystanders(doc, half.value);
      SpecWriteBystanders(WithStatusOf(doc, MergePatch(doc, StatusPatch(half.value))), true);
    }
    SpecWriteBystanders(doc, true);
  }

  lemma UnifiedFrame(doc: Json)
    ensures Bystanders(Promoted(doc, false, false)) == Bystanders(doc)
  {
    var v := ViewOf(doc);
    var half := StatusHalf(v);
    if half.Some? {
      assert GetPatches(v, false).unified == Some(UnifiedPatch(UNPAUSE.fields["spec"], half.value));
      UnifiedWriteBystanders(doc, half.value);
    }
    SpecWriteBystanders(doc, false);
  }

  /** A promote, full or not, by either path, writes nothing but the pause flag of the spec and three members of the
      status. */
  lemma PromoteFrame(doc: Json, statusSubresource: bool, full: bool)
    ensures Bystanders(Promoted(doc, statusSubresource, full)) == Bystanders(doc)
  {
    if statusSubresource {
      SubresourceFrame(doc, full);
    } else if full {
      FullPromote(doc, false);
    } else {
      UnifiedFrame(doc);
    }
  }
}
