/** What a canary or blue-green setting writes into each resource, told from the request, the deployment and what was
    there before: names, steps, analysis, services, routes; and when a setting succeeds at all. */
module StrategyContents {
  import opened Wrappers
  import opened ManifestStore
  import opened Routes
  import opened Workloads
  import opened StrategySpec
  import opened StrategyWrites
  import opened StoreRefinement
  import opened Pipeline
  import opened StrategyProofs
  import opened StrategyRoundTrip
  import opened StrategyResults
  import opened StrategyAgain

  // ---- What is asked for ----

  function CanaryRequest(s: Strategy): ExtendedCanaryStrategy {
    if s.canary.Some? then s.canary.value else ExtendedCanaryStrategy("", "", [], None, None, "")
  }

  function BlueGreenRequest(s: Strategy): BlueGreenStrategy {
    if s.blueGreen.Some? then s.blueGreen.value else BlueGreenStrategy("", "", None, "")
  }

  function StableName(dep: Object, s: Strategy): string {
    if CanaryRequest(s).stableService != "" then CanaryRequest(s).stableService else dep.meta.name
  }

  function CanaryName(dep: Object, s: Strategy): string {
    if CanaryRequest(s).canaryService != "" then CanaryRequest(s).canaryService else dep.meta.name + "-canary"
  }

  function ActiveName(dep: Object, s: Strategy): string {
    if BlueGreenRequest(s).activeService != "" then BlueGreenRequest(s).activeService else dep.meta.name + "-canary"
  }

  function PreviewName(dep: Object, s: Strategy): string {
    if BlueGreenRequest(s).previewService != "" then BlueGreenRequest(s).previewService else dep.meta.name
  }

  // ---- What is filled in ----

  const WHITE_SPACE := "\t\n\U{000B}\U{000C}\r \U{0085}\U{00A0}\U{1680}\U{2000}\U{2001}\U{2002}\U{2003}\U{2004}" +
                       "\U{2005}\U{2006}\U{2007}\U{2008}\U{2009}\U{200A}\U{2028}\U{2029}\U{202F}\U{205F}\U{3000}"

  /** The argument says nothing. */
  ghost predicate Empty(arg: AnalysisArg) {
    forall c :: c in arg.value ==> c in WHITE_SPACE
  }

  lemma EmptyIsBlank(arg: AnalysisArg)
    ensures IsBlank(arg.value) <==> Empty(arg)
  {
    forall c
      ensures c in WHITE_SPACE <==> IsSpace(c)
    {
      SpaceListed(c);
    }
    if IsBlank(arg.value) {
      forall c | c in arg.value
        ensures c in WHITE_SPACE
      {
        var i :| 0 <= i < |arg.value| && arg.value[i] == c;
      }
    }
  }

  lemma SpaceListed(c: char)
    ensures c in WHITE_SPACE <==> IsSpace(c)
  {
    assert WHITE_SPACE[9] == '\U{2000}' && WHITE_SPACE[19] == '\U{200A}';
    if '\U{2000}' <= c <= '\U{200A}' {
      var i := (c as int) - 0x2000;
      assert c == WHITE_SPACE[9 + i];
    }
  }

  /** Only an empty service or namespace argument is filled in, with this service or from the pod's namespace. */
  ghost predicate ArgFilled(before: AnalysisArg, after: AnalysisArg, service: string) {
    && after.name == before.name
    && if before.name == "service-name" && Empty(before) then
         after.value == service && after.fieldPath == before.fieldPath
       else if before.name == "namespace" && Empty(before) then
         after.value == "" && after.fieldPath == Some("metadata.namespace")
       else after == before
  }

  ghost predicate AnalysisFilled(before: Option<Analysis>, after: Option<Analysis>, service: string) {
    match (before, after)
    case (None, None) => true
    case (Some(b), Some(a)) =>
      && a.rest == b.rest && |a.args| == |b.args|
      && forall i :: 0 <= i < |a.args| ==> ArgFilled(b.args[i], a.args[i], service)
    case _ => false
  }

  lemma DefaultsFill(a: Option<Analysis>, service: string)
    ensures AnalysisFilled(a, DefaultAnalysis(a, service), service)
  {
    if a.Some? {
      var args := a.value.args;
      forall i | 0 <= i < |args|
        ensures ArgFilled(args[i], DefaultArgs(args, service)[i], service)
      {
        EmptyIsBlank(args[i]);
      }
    }
  }

  /** The steps asked for come first; without any, ten percent; and there are two at least, the second one a pause
      without end. */
  predicate StepsFilled(before: seq<CanaryStep>, after: seq<CanaryStep>) {
    && before <= after && |after| == (if |before| > 2 then |before| else 2)
    && (before == [] ==> after[0] == SetWeight(10))
    && (|before| < 2 ==> after[1] == Pause(None))
  }

  /** The VirtualService is named after the stable service and its route "canary", unless the request says otherwise. */
  predicate RouteFilled(before: ExtendedVirtualService, name: string, routes: seq<string>, stable: string) {
    && name == (if before.name != "" then before.name else stable)
    && routes == (if before.routes != [] then before.routes else ["canary"])
  }

  /** The completed request, as the rollout and the VirtualService are made from it. */
  lemma CompletedCanary(dep: Object, s: Strategy)
    requires s.stype.Canary?
    ensures var c, r := CanaryOf(dep, s), CanaryRequest(s);
            && c.stableService == StableName(dep, s) && c.canaryService == CanaryName(dep, s) && c.rest == r.rest
            && StepsFilled(r.steps, c.steps)
            && AnalysisFilled(r.analysis, c.analysis, CanaryName(dep, s))
            && (c.trafficRouting.Some? <==> r.trafficRouting.Some?)
            && (c.trafficRouting.Some? ==>
                  var a, b := c.trafficRouting.value, r.trafficRouting.value;
                  && a.rest == b.rest && (a.istio.Some? <==> b.istio.Some?)
                  && (a.istio.Some? ==>
                        var v, w := a.istio.value, b.istio.value;
                        && RouteFilled(w, v.name, v.routes, StableName(dep, s))
                        && v.uri == w.uri && v.headers == w.headers && v.ignoreUriCase == w.ignoreUriCase))
  {
    DefaultsFill(CanaryRequest(s).analysis, CanaryName(dep, s));
  }

  lemma CompletedBlueGreen(dep: Object, s: Strategy)
    requires s.stype.BlueGreen?
    ensures var c, r := BlueGreenOf(dep, s), BlueGreenRequest(s);
            && c.activeService == ActiveName(dep, s) && c.previewService == PreviewName(dep, s) && c.rest == r.rest
            && AnalysisFilled(r.prePromotionAnalysis, c.prePromotionAnalysis, PreviewName(dep, s))
  {
    DefaultsFill(BlueGreenRequest(s).prePromotionAnalysis, PreviewName(dep, s));
  }

  // ---- The rollout ----

  /** The rollout's canary is the request with its gaps filled in; Argo's form has no place for matches. */
  ghost predicate FollowsCanary(c: CanaryStrategy, dep: Object, s: Strategy) {
    var r := CanaryRequest(s);
    && c.stableService == StableName(dep, s) && c.canaryService == CanaryName(dep, s) && c.rest == r.rest
    && StepsFilled(r.steps, c.steps)
    && AnalysisFilled(r.analysis, c.analysis, CanaryName(dep, s))
    && (c.trafficRouting.Some? <==> r.trafficRouting.Some?)
    && (c.trafficRouting.Some? ==>
          var a, b := c.trafficRouting.value, r.trafficRouting.value;
          && a.rest == b.rest && (a.istio.Some? <==> b.istio.Some?)
          && (a.istio.Some? ==> RouteFilled(b.istio.value, a.istio.value.name, a.istio.value.routes,
                                            StableName(dep, s))))
  }

  ghost predicate FollowsBlueGreen(c: BlueGreenStrategy, dep: Object, s: Strategy) {
    var r := BlueGreenRequest(s);
    && c.activeService == ActiveName(dep, s) && c.previewService == PreviewName(dep, s) && c.rest == r.rest
    && AnalysisFilled(r.prePromotionAnalysis, c.prePromotionAnalysis, PreviewName(dep, s))
  }

  /** The rollout left by a setting follows the request. */
  ghost predicate Follows(rs: RolloutStrategy, dep: Object, s: Strategy) {
    if s.stype.Canary? then rs.blueGreen.None? && rs.canary.Some? && FollowsCanary(rs.canary.value, dep, s)
    else rs.canary.None? && rs.blueGreen.Some? && FollowsBlueGreen(rs.blueGreen.value, dep, s)
  }

  lemma WantedFollows(dep: Object, s: Strategy)
    requires !Removes(s)
    ensures Follows(Wanted(dep, s), dep, s)
  {
    if s.stype.Canary? {
      CompletedCanary(dep, s);
    } else {
      CompletedBlueGreen(dep, s);
    }
  }

  /** After a successful setting the rollout carries the request with its gaps filled in. `RolloutAfter` has the rest of
      it. */
  lemma RolloutFollows(dir: Dir, dep: Object, s: Strategy) returns (r: Object)
    requires UniqueKeys(OBJECTS, dir) && Free(dir, dep, s)
    requires MainDeployment(Yamls(dir)) == Some(dep) && !Removes(s) && ErrorOf(dir, s).None?
    ensures Read(OBJECTS, After(dir, s), RolloutKey(dep)) == Some(r)
    ensures RolloutFits(r, dep, s, Read(OBJECTS, dir, RolloutKey(dep))) && Follows(r.body.rollout.strategy, dep, s)
  {
    r := RolloutAfter(dir, dep, s);
    assert r.body.rollout.strategy == Wanted(dep, s);
    WantedFollows(dep, s);
  }

  /** What reads back after a canary or blue-green setting: the request with its gaps filled in and without matches. */
  lemma ReadBackContents(l: ReadDir, dir: Dir, keys: set<Key>, s: Strategy)
    requires Ready(dir, keys) && CoversAt(keys, dir, s) && !Removes(s) && ErrorOf(dir, s).None?
    ensures var dep, parsed := MainDeployment(Yamls(dir)).value, ParseStrategy(Yamls(Set(l, dir, s)));
            && parsed.Some? && parsed.value.stype == s.stype && parsed.value.rolling.None?
            && if s.stype.Canary? then
                 && parsed.value.blueGreen.None? && parsed.value.canary.Some?
                 && var c := parsed.value.canary.value;
                    && FollowsCanary(CanaryStrategy(c.canaryService, c.stableService, c.steps, c.analysis,
                                                    PlainRouting(c.trafficRouting), c.rest), dep, s)
                    && (c.trafficRouting.Some? && c.trafficRouting.value.istio.Some? ==>
                          var vs := c.trafficRouting.value.istio.value;
                          vs.uri.None? && vs.headers == map[] && !vs.ignoreUriCase)
               else parsed.value.canary.None? && parsed.value.blueGreen.Some?
                    && FollowsBlueGreen(parsed.value.blueGreen.value, dep, s)
  {
    SetReadsBack(l, dir, keys, s);
    WantedFollows(MainDeployment(Yamls(dir)).value, s);
  }

  /** The routing without its matches. */
  function PlainRouting(tr: Option<ExtendedTrafficRouting>): Option<TrafficRouting> {
    match tr
    case None => None
    case Some(t) =>
      var vs := if t.istio.Some? then Some(VirtualServiceRef(t.istio.value.name, t.istio.value.routes)) else None;
      Some(TrafficRouting(vs, t.rest))
  }

  /** Reading a directory nobody set a strategy in: the rollout of the deployment's name decides, a canary before a
      blue-green one, every member as it stands there; without a rollout it is the deployment's own strategy. */
  lemma ReadsAsIs(dir: Dir, dep: Object)
    requires UniqueKeys(OBJECTS, dir) && MainDeployment(Yamls(dir)) == Some(dep)
    ensures ParseStrategy(Yamls(dir)).Some?
    ensures var p := ParseStrategy(Yamls(dir)).value;
            match Read(OBJECTS, dir, RolloutKey(dep))
            case None =>
              && p.stype == dep.body.deployment.strategy.stype && p.rolling == dep.body.deployment.strategy.rolling
              && p.canary.None? && p.blueGreen.None?
            case Some(r) =>
              && r.body.RolloutBody? && p.rolling.None?
              && var rs := r.body.rollout.strategy;
                 && p.stype.Canary? == p.canary.Some? == rs.canary.Some?
                 && p.stype.BlueGreen? == p.blueGreen.Some? == (rs.canary.None? && rs.blueGreen.Some?)
                 && (rs.canary.None? && rs.blueGreen.None? ==> p.stype.Unset?)
                 && (p.blueGreen.Some? ==> p.blueGreen == rs.blueGreen)
                 && (p.canary.Some? ==>
                       var c := p.canary.value;
                       && rs.canary.value == CanaryStrategy(c.canaryService, c.stableService, c.steps, c.analysis,
                                                            PlainRouting(c.trafficRouting), c.rest)
                       && (c.trafficRouting.Some? && c.trafficRouting.value.istio.Some? ==>
                             var vs := c.trafficRouting.value.istio.value;
                             vs.uri.None? && vs.headers == map[] && !vs.ignoreUriCase))
  {
    ParsedIs(dir);
  }

  // ---- Removing ----

  /** The resource carries the mark of what the platform makes for rollouts. */
  predicate Marked(o: Object) {
    ("application.kubegems.io/is-generated-by", "rollouts") in o.meta.annotations.Items
  }

  /** A setting that removes takes away exactly the files whose resource is marked, and adds none. */
  lemma RemovesMarked(dir: Dir, dep: Object, s: Strategy, f: string)
    requires UniqueKeys(OBJECTS, dir) && MainDeployment(Yamls(dir)) == Some(dep) && Removes(s)
    ensures f in After(dir, s) <==> f in dir && !(IsYaml(f) && dir[f].Resource? && Marked(dir[f].doc))
  {
    var main := MainFile(dir, dep);
    CleanAfter(dir, dep, s, main);
    if f in dir && dir[f].Resource? {
      MarkedIsGenerated(dir[f].doc);
    }
  }

  lemma MarkedIsGenerated(o: Object)
    ensures Marked(o) <==> Generated(o)
  {
    var m, k, v := o.meta.annotations, "application.kubegems.io/is-generated-by", "rollouts";
    if Generated(o) {
      assert (k, v) in m.Items;
    }
  }

  // ---- Services ----

  /** How many ports the first `n` containers declare. */
  function PortCount(containers: seq<Container>, n: nat): nat
    requires n <= |containers|
  {
    if n == 0 then 0 else PortCount(containers, n - 1) + |containers[n - 1].ports|
  }

  /** One service port for every container port, in order, to the same port of the pod. */
  ghost predicate ListsPorts(ports: seq<ServicePort>, containers: seq<Container>) {
    && |ports| == PortCount(containers, |containers|)
    && forall i: nat, j: nat :: i < |containers| && j < |containers[i].ports| ==>
         ForwardsPort(ports, PortCount(containers, i) + j, containers[i].ports[j])
  }

  predicate ForwardsPort(ports: seq<ServicePort>, at: nat, c: ContainerPort) {
    at < |ports| && ports[at].name == c.name && ports[at].protocol == c.protocol &&
    ports[at].port == c.port == ports[at].targetPort
  }

  lemma {:induction false} PortCountPrefix(containers: seq<Container>, n: nat, m: nat)
    requires n <= m <= |containers|
    ensures PortCount(containers[..m], n) == PortCount(containers, n)
    decreases n
  {
    if n > 0 {
      PortCountPrefix(containers, n - 1, m);
    }
  }

  lemma ForwardsMore(ports: seq<ServicePort>, more: seq<ServicePort>, at: nat, c: ContainerPort)
    requires ForwardsPort(ports, at, c)
    ensures ForwardsPort(ports + more, at, c)
  {
  }

  lemma ForwardsLast(before: seq<ServicePort>, ports: seq<ContainerPort>, j: nat)
    requires j < |ports|
    ensures ForwardsPort(before + PortsOf(ports), |before| + j, ports[j])
  {
  }

  lemma {:induction false} PortsListed(containers: seq<Container>)
    ensures ListsPorts(AllPorts(containers), containers)
    decreases |containers|
  {
    if containers != [] {
      var n := |containers| - 1;
      var less, last := containers[..n], containers[n];
      PortsListed(less);
      PortCountPrefix(containers, n, n);
      assert AllPorts(containers) == AllPorts(less) + PortsOf(last.ports);
      forall i: nat, j: nat | i < |containers| && j < |containers[i].ports|
        ensures ForwardsPort(AllPorts(containers), PortCount(containers, i) + j, containers[i].ports[j])
      {
        if i < n {
          PortCountPrefix(containers, i, n);
          assert ForwardsPort(AllPorts(less), PortCount(less, i) + j, less[i].ports[j]);
          ForwardsMore(AllPorts(less), PortsOf(last.ports), PortCount(less, i) + j, less[i].ports[j]);
        } else {
          ForwardsLast(AllPorts(less), last.ports, j);
        }
      }
    }
  }

  /** The service made for a deployment that has none: named and placed like it and marked, it selects by all labels of
      the pods but their version and forwards every port they declare. */
  ghost predicate ServiceFor(o: Object, dep: Object)
    requires dep.body.DeploymentBody?
  {
    var template := dep.body.deployment.template;
    && o.meta == Meta(dep.meta.name, dep.meta.namespace, map[],
                      map["application.kubegems.io/is-generated-by" := "rollouts"], [])
    && o.status.None? && o.body.ServiceBody?
    && var spec := o.body.service;
       && (forall l :: l in spec.selector <==> l in template.labels && l != "version")
       && (forall l :: l in spec.selector ==> spec.selector[l] == template.labels[l])
       && ListsPorts(spec.ports, template.containers)
       && spec.stype == spec.sessionAffinity == spec.externalTrafficPolicy == spec.rest == ""
  }

  lemma NewServiceFits(dep: Object)
    requires dep.body.DeploymentBody?
    ensures ServiceFor(NewService(dep).Settled(), dep)
  {
    PortsListed(dep.body.deployment.template.containers);
  }

  /** A label or annotation map lent to a copy that was there before comes back with the copy's entries in it. */
  ghost predicate Lent(m: StringMap, stable: StringMap, shared: bool, lender: StringMap) {
    && (forall l :: l in m <==> l in stable || (shared && l in lender))
    && (forall l :: l in m ==> m[l] == if shared && l in lender then lender[l] else stable[l])
  }

  /** A copy of the stable service under another name, marked: same namespace, ports, pods, type, affinity and policy.
      Labels, annotations and finalizers are those of the stable service, except that a copy which was there before has
      left its own in them, unless the stable service had none to share. */
  ghost predicate CopyFor(o: Object, stable: Object, lender: Option<Object>, n: string) {
    var theirs := if lender.Some? then lender.value.meta else Meta("", "", map[], map[], []);
    && o.meta.name == n && o.meta.namespace == stable.meta.namespace && o.status.None?
    && Lent(o.meta.labels, stable.meta.labels, stable.meta.labels != map[], theirs.labels)
    && Marked(o)
    && Lent(o.meta.annotations - {"application.kubegems.io/is-generated-by"},
            stable.meta.annotations - {"application.kubegems.io/is-generated-by"}, stable.meta.annotations != map[],
            theirs.annotations - {"application.kubegems.io/is-generated-by"})
    && |o.meta.finalizers| == |stable.meta.finalizers|
    && (forall i :: 0 <= i < |o.meta.finalizers| ==>
          o.meta.finalizers[i] ==
          if i < |theirs.finalizers| then theirs.finalizers[i] else stable.meta.finalizers[i])
    && o.body.ServiceBody? && stable.body.ServiceBody?
    && o.body.service == stable.body.service.(rest := "")
  }

  lemma PlainCopy(stable: Object, n: string)
    requires stable.body.ServiceBody?
    ensures CopyFor(CopyService(stable, n).Settled(), stable, None, n)
  {
  }

  lemma MingledCopy(stable: Object, found: Option<Object>, n: string)
    requires stable.body.ServiceBody?
    ensures CopyFor(CopyService(Mingle(stable, found), n).Settled(), stable, found, n)
  {
  }

  /** The services a setting names, in the order in which they are made. */
  function Names(dep: Object, s: Strategy): (string, string) {
    if s.stype.Canary? then (StableName(dep, s), CanaryName(dep, s)) else (ActiveName(dep, s), PreviewName(dep, s))
  }

  lemma NamesAsked(dep: Object, s: Strategy)
    requires !Removes(s)
    ensures ServiceNames(dep, s) == [Names(dep, s).0, Names(dep, s).1]
  {
  }

  /** The writes of the key are puts of such documents. */
  ghost predicate EveryWrite(ws: seq<Write<Object>>, k: Key, p: Object -> bool) {
    forall i :: 0 <= i < |ws| && WriteKey(ws[i]) == k ==> ws[i].Put? && p(ws[i].doc)
  }

  lemma EveryAppend(a: seq<Write<Object>>, b: seq<Write<Object>>, k: Key, p: Object -> bool)
    requires EveryWrite(a, k, p) && EveryWrite(b, k, p)
    ensures EveryWrite(a + b, k, p)
  {
  }

  lemma {:induction false} FinalEvery(ws: seq<Write<Object>>, k: Key, p: Object -> bool)
    requires EveryWrite(ws, k, p)
    ensures Final(ws, k, None).Some? ==> p(Final(ws, k, None).value)
    decreases |ws|
  {
    if ws != [] {
      var less := ws[..|ws| - 1];
      assert forall i :: 0 <= i < |less| ==> less[i] == ws[i];
      FinalEvery(less, k, p);
    }
  }

  lemma CopiesTwo(snap: Snapshot, stable: Object, a: string, b: string)
    requires stable.body.ServiceBody?
    ensures var one := if a == stable.meta.name then Done()
                       else CreateIfAbsent(snap, CopyService(stable, a));
            var shared := if a == stable.meta.name then stable else Mingle(stable, Read(OBJECTS, snap, ServiceKey(a)));
            var two := if b == stable.meta.name then Done() else CreateIfAbsent(snap, CopyService(shared, b));
            CopiesEffect(snap, stable, [a, b]) == Then(Then(Done(), one), two)
  {
    assert [a, b][..1] == [a] && [a][..0] == [];
    assert CopiesEffect(snap, stable, []) == Done() && Mingled(snap, stable, []) == stable;
    assert Mingled(snap, stable, [a]) ==
      if a == stable.meta.name then stable else Mingle(stable, Read(OBJECTS, snap, ServiceKey(a)));
  }

  lemma CreateEvery(snap: Snapshot, o: Object, k: Key, p: Object -> bool)
    requires o.Key() == k ==> p(o.Settled())
    ensures EveryWrite(CreateIfAbsent(snap, o).writes, k, p)
  {
    assert o.Settled().Key() == o.Key();
  }

  /** What the copies share with one that was there before. */
  ghost function LenderAmong(snap: Snapshot, stable: Object, a: string, n: string): Option<Object> {
    if n == a || a == stable.meta.name then None else Read(OBJECTS, snap, ServiceKey(a))
  }

  lemma FirstCopyFits(snap: Snapshot, stable: Object, a: string, n: string, p: Object -> bool)
    requires stable.body.ServiceBody? && a != stable.meta.name
    requires forall o :: CopyFor(o, stable, LenderAmong(snap, stable, a, n), n) ==> p(o)
    ensures EveryWrite(CreateIfAbsent(snap, CopyService(stable, a)).writes, ServiceKey(n), p)
  {
    assert CopyService(stable, a).Key() == ServiceKey(a);
    PlainCopy(stable, n);
    CreateEvery(snap, CopyService(stable, a), ServiceKey(n), p);
  }

  lemma SecondCopyFits(snap: Snapshot, stable: Object, a: string, b: string, n: string, p: Object -> bool)
    requires stable.body.ServiceBody? && !Present(OBJECTS, snap, ServiceKey(n))
    requires forall o :: CopyFor(o, stable, LenderAmong(snap, stable, a, n), n) ==> p(o)
    ensures var shared := if a == stable.meta.name then stable else Mingle(stable, Read(OBJECTS, snap, ServiceKey(a)));
            EveryWrite(CreateIfAbsent(snap, CopyService(shared, b)).writes, ServiceKey(n), p)
  {
    var found := Read(OBJECTS, snap, ServiceKey(a));
    var shared := if a == stable.meta.name then stable else Mingle(stable, found);
    assert CopyService(shared, b).Key() == ServiceKey(b);
    PlainCopy(stable, n);
    MingledCopy(stable, found, n);
    CreateEvery(snap, CopyService(shared, b), ServiceKey(n), p);
  }

  /** The copies written under one of the two names, where there was none. */
  lemma CopiesFit(snap: Snapshot, stable: Object, a: string, b: string, n: string, p: Object -> bool)
    requires stable.body.ServiceBody? && n != stable.meta.name && !Present(OBJECTS, snap, ServiceKey(n))
    requires forall o :: CopyFor(o, stable, LenderAmong(snap, stable, a, n), n) ==> p(o)
    ensures EveryWrite(CopiesEffect(snap, stable, [a, b]).writes, ServiceKey(n), p)
  {
    var k := ServiceKey(n);
    var shared := if a == stable.meta.name then stable else Mingle(stable, Read(OBJECTS, snap, ServiceKey(a)));
    var one := if a == stable.meta.name then Done() else CreateIfAbsent(snap, CopyService(stable, a));
    var two := if b == stable.meta.name then Done() else CreateIfAbsent(snap, CopyService(shared, b));
    CopiesTwo(snap, stable, a, b);
    if a != stable.meta.name {
      FirstCopyFits(snap, stable, a, n, p);
    }
    SecondCopyFits(snap, stable, a, b, n, p);
    EveryAppend([], one.writes, k, p);
    EveryAppend([] + one.writes, two.writes, k, p);
  }

  /** The copies do not concern the stable service's own key. */
  lemma CopiesAside(snap: Snapshot, stable: Object, a: string, b: string, p: Object -> bool)
    requires stable.body.ServiceBody?
    ensures EveryWrite(CopiesEffect(snap, stable, [a, b]).writes, ServiceKey(stable.meta.name), p)
  {
    var k := ServiceKey(stable.meta.name);
    var shared := if a == stable.meta.name then stable else Mingle(stable, Read(OBJECTS, snap, ServiceKey(a)));
    var one := if a == stable.meta.name then Done() else CreateIfAbsent(snap, CopyService(stable, a));
    var two := if b == stable.meta.name then Done() else CreateIfAbsent(snap, CopyService(shared, b));
    CopiesTwo(snap, stable, a, b);
    assert CopyService(stable, a).Key() == ServiceKey(a) && CopyService(shared, b).Key() == ServiceKey(b);
    if a != stable.meta.name {
      CreateEvery(snap, CopyService(stable, a), k, p);
    }
    if b != stable.meta.name {
      CreateEvery(snap, CopyService(shared, b), k, p);
    }
    EveryAppend([], one.writes, k, p);
    EveryAppend([] + one.writes, two.writes, k, p);
  }

  /** Of all writes of a successful setting only those of the services part concern a service. */
  lemma ServiceFinal(snap: Snapshot, dep: Object, s: Strategy, k: Key, before: Option<Object>)
    requires MainDeployment(snap) == Some(dep) && !Removes(s) && StrategyEffect(snap, s).error.None? && k.kind.Service?
    ensures var services := ServicesEffect(snap, dep, ServiceNames(dep, s));
            && services.error.None?
            && Final(StrategyEffect(snap, s).writes, k, before) == Final(services.writes, k, before)
  {
    var services, routing := ServicesEffect(snap, dep, ServiceNames(dep, s)), Routing(snap, dep, s);
    var rollout := EnsureRolloutEffect(snap, dep, Wanted(dep, s));
    TemporaryEffect(snap, dep, s);
    PreparationParts(snap, dep, s);
    RoutingIsRouting(snap, dep, s);
    RolloutWrite(snap, dep, Wanted(dep, s));
    OnlyServicesCount(services.writes, routing.writes, rollout.writes, k, before);
  }

  lemma OnlyServicesCount(services: seq<Write<Object>>, routing: seq<Write<Object>>, rollout: seq<Write<Object>>,
                          k: Key, before: Option<Object>)
    requires forall w :: w in routing ==> WriteKey(w) != k
    requires forall i :: 0 <= i < |rollout| ==> WriteKey(rollout[i]) != k
    ensures Final(services + routing + rollout, k, before) == Final(services, k, before)
  {
    var first := Final(services, k, before);
    FinalUntouched(routing, k, first);
    FinalUntouched(rollout, k, first);
    FinalAppend(services, routing, k, before);
    FinalAppend(services + routing, rollout, k, before);
  }

  lemma RoutingIsRouting(snap: Snapshot, dep: Object, s: Strategy)
    ensures forall w :: w in Routing(snap, dep, s).writes ==> WriteKey(w).kind.VirtualService?
  {
    var c := CanaryOf(dep, s);
    if s.stype.Canary? && c.trafficRouting.Some? && c.trafficRouting.value.istio.Some? {
      IstioAddsNoService(snap, dep, c.stableService, c.canaryService, c.trafficRouting.value.istio.value);
    }
  }

  /** What the services part leaves under the deployment's name, where there was no service. */
  lemma StableFits(snap: Snapshot, dep: Object, a: string, b: string)
    requires dep.body.DeploymentBody? && !Present(OBJECTS, snap, ServiceKey(dep.meta.name))
    requires ServicesEffect(snap, dep, [a, b]).error.None?
    ensures var o := Final(ServicesEffect(snap, dep, [a, b]).writes, ServiceKey(dep.meta.name), None);
            o.Some? ==> ServiceFor(o.value, dep)
  {
    var stable, k := StableService(snap, dep), ServiceKey(dep.meta.name);
    var p := (o: Object) => o == NewService(dep).Settled();
    assert stable == NewService(dep);
    CreateEvery(snap, stable, k, p);
    CopiesAside(snap, stable, a, b, p);
    EveryAppend(CreateIfAbsent(snap, stable).writes, CopiesEffect(snap, stable, [a, b]).writes, k, p);
    FinalEvery(ServicesEffect(snap, dep, [a, b]).writes, k, p);
    NewServiceFits(dep);
  }

  lemma CopyFits(snap: Snapshot, dep: Object, a: string, b: string, n: string)
    requires dep.body.DeploymentBody? && n != dep.meta.name && !Present(OBJECTS, snap, ServiceKey(n))
    requires ServicesEffect(snap, dep, [a, b]).error.None?
    ensures var o := Final(ServicesEffect(snap, dep, [a, b]).writes, ServiceKey(n), None);
            var stable := StableService(snap, dep);
            o.Some? ==> CopyFor(o.value, stable, LenderAmong(snap, stable, a, n), n)
  {
    var stable, k := StableService(snap, dep), ServiceKey(n);
    var p := (o: Object) => CopyFor(o, stable, LenderAmong(snap, stable, a, n), n);
    assert stable.body.ServiceBody? && stable.meta.name == dep.meta.name;
    if !Present(OBJECTS, snap, ServiceKey(dep.meta.name)) {
      assert stable.Key() == ServiceKey(dep.meta.name);
      CreateEvery(snap, stable, k, p);
    }
    CopiesFit(snap, stable, a, b, n, p);
    EveryAppend(CreateIfAbsent(snap, stable).writes, CopiesEffect(snap, stable, [a, b]).writes, k, p);
    FinalEvery(ServicesEffect(snap, dep, [a, b]).writes, k, p);
  }

  lemma SettingServices(dir: Dir, dep: Object, s: Strategy, n: string)
    requires UniqueKeys(OBJECTS, dir) && Free(dir, dep, s)
    requires MainDeployment(Yamls(dir)) == Some(dep) && !Removes(s) && ErrorOf(dir, s).None?
    ensures var services := ServicesEffect(Yamls(dir), dep, [Names(dep, s).0, Names(dep, s).1]);
            && services.error.None?
            && Read(OBJECTS, After(dir, s), ServiceKey(n)) ==
               Final(services.writes, ServiceKey(n), Read(OBJECTS, dir, ServiceKey(n)))
  {
    NamesAsked(dep, s);
    ServiceFinal(Yamls(dir), dep, s, ServiceKey(n), Read(OBJECTS, dir, ServiceKey(n)));
    StrategyLawful(dir, dep, s);
    ReadFinal(dir, dep, s, StrategyEffect(Yamls(dir), s).writes, ServiceKey(n));
  }

  /** The service of the deployment's name, as it is afterwards. */
  lemma OwnService(dir: Dir, dep: Object, s: Strategy)
    requires UniqueKeys(OBJECTS, dir) && Free(dir, dep, s)
    requires MainDeployment(Yamls(dir)) == Some(dep) && !Removes(s) && ErrorOf(dir, s).None?
    ensures Read(OBJECTS, After(dir, s), ServiceKey(dep.meta.name)) == Some(StableService(Yamls(dir), dep))
  {
    var snap, k := Yamls(dir), ServiceKey(dep.meta.name);
    var (a, b) := Names(dep, s);
    var stable := StableService(snap, dep);
    var never := (o: Object) => false;
    SnapshotWhere(OBJECTS, dir, k);
    SettingServices(dir, dep, s, dep.meta.name);
    CopiesAside(snap, stable, a, b, never);
    var own, copies := CreateIfAbsent(snap, stable), CopiesEffect(snap, stable, [a, b]);
    FinalUntouched(copies.writes, k, Final(own.writes, k, Read(OBJECTS, dir, k)));
    FinalAppend(own.writes, copies.writes, k, Read(OBJECTS, dir, k));
    if !Present(OBJECTS, snap, k) {
      FinalShort(Put(FileName(k), stable.Settled()), k, None);
    }
  }

  /** The services a successful setting leaves where there were none. The deployment's own is made from its pods; any
      other is a copy of the deployment's own, which may have passed through the first copy. */
  lemma ServiceContents(dir: Dir, dep: Object, s: Strategy, n: string) returns (o: Object)
    requires UniqueKeys(OBJECTS, dir) && Free(dir, dep, s)
    requires MainDeployment(Yamls(dir)) == Some(dep) && !Removes(s) && ErrorOf(dir, s).None?
    requires n in {dep.meta.name, Names(dep, s).0, Names(dep, s).1} && !Present(OBJECTS, dir, ServiceKey(n))
    ensures Read(OBJECTS, After(dir, s), ServiceKey(n)) == Some(o)
    ensures n == dep.meta.name ==> ServiceFor(o, dep)
    ensures n != dep.meta.name ==>
              var own, first := Read(OBJECTS, After(dir, s), ServiceKey(dep.meta.name)), Names(dep, s).0;
              var lender := if first in {n, dep.meta.name} then None else Read(OBJECTS, dir, ServiceKey(first));
              own.Some? && CopyFor(o, own.value, lender, n)
  {
    var snap := Yamls(dir);
    var (a, b) := Names(dep, s);
    NamesAsked(dep, s);
    ServicesAfter(dir, dep, s);
    o := Read(OBJECTS, After(dir, s), ServiceKey(n)).value;
    SnapshotWhere(OBJECTS, dir, ServiceKey(n));
    SnapshotWhere(OBJECTS, dir, ServiceKey(a));
    SettingServices(dir, dep, s, n);
    if n == dep.meta.name {
      StableFits(snap, dep, a, b);
    } else {
      OwnService(dir, dep, s);
      CopyFits(snap, dep, a, b, n);
    }
  }

  // ---- The VirtualService ----

  /** The setting asks for routing through a VirtualService. */
  predicate AsksRoute(s: Strategy) {
    && s.stype.Canary? && CanaryRequest(s).trafficRouting.Some? && CanaryRequest(s).trafficRouting.value.istio.Some?
  }

  function RouteRequest(s: Strategy): ExtendedVirtualService
    requires AsksRoute(s)
  {
    CanaryRequest(s).trafficRouting.value.istio.value
  }

  function VirtualServiceName(dep: Object, s: Strategy): string
    requires AsksRoute(s)
  {
    if RouteRequest(s).name != "" then RouteRequest(s).name else StableName(dep, s)
  }

  function RouteName(s: Strategy): string
    requires AsksRoute(s)
  {
    if RouteRequest(s).routes != [] then RouteRequest(s).routes[0] else "canary"
  }

  /** The route a setting puts in: all traffic to the stable service and none yet to the canary, for the requests that
      match what was asked for, or for all of them. */
  ghost predicate CanaryRouteFor(r: HttpRoute, dep: Object, s: Strategy)
    requires AsksRoute(s)
  {
    && r.name == RouteName(s) && r.rest == ""
    && |r.route| == 2
    && r.route[0].host == StableName(dep, s) && r.route[0].weight == 100 && r.route[0].rest == ""
    && r.route[1].host == CanaryName(dep, s) && r.route[1].weight == 0 && r.route[1].rest == ""
    && |r.matches| <= 1
    && (|r.matches| == 1 <==> RouteRequest(s).headers != map[] || RouteRequest(s).uri.Some?)
    && (|r.matches| == 1 ==>
          && r.matches[0].headers == RouteRequest(s).headers && r.matches[0].uri == RouteRequest(s).uri
          && r.matches[0].ignoreUriCase == RouteRequest(s).ignoreUriCase && r.matches[0].rest == "")
  }

  /** A VirtualService made by a setting: marked, for the stable service only, with the canary route before a plain one
      that has no name. */
  ghost predicate NewRouting(o: Object, dep: Object, s: Strategy)
    requires AsksRoute(s)
  {
    && o.meta == Meta(VirtualServiceName(dep, s), dep.meta.namespace, map[],
                      map["application.kubegems.io/is-generated-by" := "rollouts"], [])
    && o.status.None? && o.body.VirtualServiceBody?
    && var spec := o.body.virtualService;
       && spec.hosts == [StableName(dep, s)] && spec.rest == ""
       && |spec.http| == 2 && CanaryRouteFor(spec.http[0], dep, s)
       && spec.http[1].name == "" && spec.http[1].matches == [] && spec.http[1].rest == ""
       && |spec.http[1].route| == 1
       && spec.http[1].route[0].host == StableName(dep, s) && spec.http[1].route[0].rest == ""
  }

  /** Nothing but its routes changes. */
  predicate SameButRoutes(before: Object, after: Object) {
    && before.body.VirtualServiceBody? && after.body.VirtualServiceBody?
    && after.meta == before.meta && (after.status == before.status || after.status.None?)
    && after.body.virtualService.hosts == before.body.virtualService.hosts
    && after.body.virtualService.rest == before.body.virtualService.rest
  }

  lemma RouteAsked(dep: Object, s: Strategy)
    ensures AsksRoute(s) <==> IstioRouted(dep, s)
    ensures AsksRoute(s) ==> RouteKey(dep, s) == Some(Key(VirtualService, VirtualServiceName(dep, s)))
    ensures AsksRoute(s) ==> WantedRoute(dep, s).name == RouteName(s) && CanaryRouteFor(WantedRoute(dep, s), dep, s)
  {
    if s.stype.Canary? {
      CompletedCanary(dep, s);
    }
  }

  /** What the routing step leaves. */
  ghost predicate RoutingLeft(before: Option<Object>, after: Option<Object>, dep: Object, s: Strategy)
    requires AsksRoute(s)
  {
    && after.Some?
    && match before
       case None => NewRouting(after.value, dep, s)
       case Some(was) => SameButRoutes(was, after.value)
  }

  lemma NewRoutingFits(dep: Object, s: Strategy)
    requires AsksRoute(s)
    ensures var c := CanaryOf(dep, s);
            var vs := c.trafficRouting.value.istio.value;
            NewRouting(NewVirtualService(dep, c.stableService, c.canaryService, vs).Settled(), dep, s)
  {
    RouteAsked(dep, s);
    CompletedCanary(dep, s);
  }

  lemma IstioLeft(snap: Snapshot, dep: Object, s: Strategy, k: Key)
    requires AsksRoute(s) && RouteKey(dep, s) == Some(k) && Routing(snap, dep, s).error.None?
    ensures RoutingLeft(Read(OBJECTS, snap, k), Final(Routing(snap, dep, s).writes, k, Read(OBJECTS, snap, k)), dep, s)
  {
    var c := CanaryOf(dep, s);
    var vs := c.trafficRouting.value.istio.value;
    var target, before := NewVirtualService(dep, c.stableService, c.canaryService, vs), Read(OBJECTS, snap, k);
    NewRoutingFits(dep, s);
    match before
    case None => FinalShort(Put(FileName(k), target.Settled()), k, before);
    case Some(exist) =>
      var placed := Placed(exist.body.virtualService.http, target.body.virtualService.http[0]);
      FinalShort(Put(Where(OBJECTS, snap, k).value, WithRoutes(exist, placed.0).Settled()), k, before);
  }

  /** The VirtualService after a successful routed setting: a new one holds exactly the canary route and a plain one, an
      existing one keeps everything but its routes. */
  lemma RoutingContents(dir: Dir, dep: Object, s: Strategy)
    requires UniqueKeys(OBJECTS, dir) && Free(dir, dep, s)
    requires MainDeployment(Yamls(dir)) == Some(dep) && AsksRoute(s) && ErrorOf(dir, s).None?
    ensures var k := Key(VirtualService, VirtualServiceName(dep, s));
            RoutingLeft(Read(OBJECTS, dir, k), Read(OBJECTS, After(dir, s), k), dep, s)
  {
    var snap, k := Yamls(dir), Key(VirtualService, VirtualServiceName(dep, s));
    RouteAsked(dep, s);
    SnapshotWhere(OBJECTS, dir, k);
    SettingFinal(snap, dep, s, k, Read(OBJECTS, dir, k));
    IstioLeft(snap, dep, s, k);
    StrategyLawful(dir, dep, s);
    ReadFinal(dir, dep, s, StrategyEffect(snap, s).writes, k);
  }

  /** The canary route comes first. */
  ghost predicate CanaryInFront(o: Option<Object>, dep: Object, s: Strategy)
    requires AsksRoute(s)
  {
    && o.Some? && o.value.body.VirtualServiceBody?
    && o.value.body.virtualService.http != [] && CanaryRouteFor(o.value.body.virtualService.http[0], dep, s)
  }

  /** At most one route of the VirtualService has the name, and that is not empty. */
  ghost predicate OneRoute(o: Option<Object>, name: string) {
    name != "" &&
    (o.Some? && o.value.body.VirtualServiceBody? ==> AtMostOne(o.value.body.virtualService.http, name))
  }

  lemma SettingOnce(l: ReadDir, dir: Dir, keys: set<Key>, dep: Object, s: Strategy)
    requires Ready(dir, keys) && MainDeployment(Yamls(dir)) == Some(dep) && Covers(keys, dep, s)
    requires AsksRoute(s) && ErrorOf(dir, s).None?
    ensures var k := Key(VirtualService, VirtualServiceName(dep, s));
            RoutingLeft(Read(OBJECTS, dir, k), Read(OBJECTS, Set(l, dir, s), k), dep, s)
  {
    FreshIsFree(dir, keys, dep, s);
    RoutingContents(dir, dep, s);
    TidyKept(dir, keys, s);
    ReadyKept(dir, keys, s);
    KustomizeTransparent(l, After(dir, s), keys);
  }

  /** After two settings the canary route is in front in any case; a VirtualService that was there before is otherwise
      what it was, one that was not is for the stable service only. */
  lemma RoutedTwice(l: ReadDir, dir: Dir, keys: set<Key>, dep: Object, s: Strategy)
    requires Lists(l) && Ready(dir, keys) && MainDeployment(Yamls(dir)) == Some(dep) && Covers(keys, dep, s)
    requires AsksRoute(s) && ErrorOf(dir, s).None?
    requires OneRoute(Read(OBJECTS, dir, Key(VirtualService, VirtualServiceName(dep, s))), RouteName(s))
    ensures var k := Key(VirtualService, VirtualServiceName(dep, s));
            var before, after := Read(OBJECTS, dir, k), Read(OBJECTS, Set(l, Set(l, dir, s), s), k);
            && ErrorOf(Set(l, dir, s), s).None?
            && CanaryInFront(after, dep, s)
            && if before.Some? then SameButRoutes(before.value, after.value)
               else after.value.body.virtualService.hosts == [StableName(dep, s)] && Generated(after.value)
  {
    var k, once := Key(VirtualService, VirtualServiceName(dep, s)), Set(l, dir, s);
    RouteAsked(dep, s);
    RoutedThrice(l, dir, keys, dep, s, k);
    RoutedOnce(l, dir, keys, dep, s, k);
    SettingOnce(l, dir, keys, dep, s);
    SettingOnce(l, once, keys, dep, s);
  }

  // ---- When a setting succeeds ----

  /** The service of the deployment's name is there, or can be made: some container declares a port. */
  ghost predicate Servable(dir: Dir, dep: Object)
    requires dep.body.DeploymentBody?
  {
    Present(OBJECTS, dir, ServiceKey(dep.meta.name)) ||
    exists c :: c in dep.body.deployment.template.containers && c.ports != []
  }

  /** Whatever the setting has to create has a name. */
  ghost predicate NamesGiven(dir: Dir, dep: Object, s: Strategy) {
    forall k :: Creates(dep, s, k) && !Present(OBJECTS, dir, k) ==> k.name != ""
  }

  lemma {:induction false} NoPortsListed(containers: seq<Container>)
    ensures AllPorts(containers) != [] <==> exists c :: c in containers && c.ports != []
    decreases |containers|
  {
    if containers != [] {
      var less, last := containers[..|containers| - 1], containers[|containers| - 1];
      NoPortsListed(less);
      assert containers == less + [last];
      assert PortsOf(last.ports) != [] <==> last.ports != [];
    }
  }

  /** The services part fails only for want of ports or names. */
  lemma ServicesError(snap: Snapshot, dep: Object, a: string, b: string)
    requires dep.body.DeploymentBody? && (a == "" ==> dep.meta.name == "") && (b == "" ==> dep.meta.name == "")
    ensures ServicesEffect(snap, dep, [a, b]).error ==
            if !Present(OBJECTS, snap, ServiceKey(dep.meta.name)) &&
               AllPorts(dep.body.deployment.template.containers) == [] then Some(NoPorts)
            else if !Present(OBJECTS, snap, ServiceKey(dep.meta.name)) && dep.meta.name == "" then Some(BadRequest)
            else None
    ensures ServicesEffect(snap, dep, [a, b]).error == Some(NoPorts) ==> ServicesEffect(snap, dep, [a, b]).writes == []
  {
    var stable := StableService(snap, dep);
    CopiesTwo(snap, stable, a, b);
  }

  lemma RoutingError(snap: Snapshot, dep: Object, s: Strategy)
    ensures Routing(snap, dep, s).error ==
            if RouteKey(dep, s).Some? && !Present(OBJECTS, snap, RouteKey(dep, s).value) &&
               RouteKey(dep, s).value.name == "" then Some(BadRequest) else None
  {
  }

  lemma RolloutError(snap: Snapshot, dep: Object, rs: RolloutStrategy)
    requires dep.body.DeploymentBody?
    ensures EnsureRolloutEffect(snap, dep, rs).error ==
            if !Present(OBJECTS, snap, RolloutKey(dep)) && dep.meta.name == "" then Some(BadRequest) else None
  {
  }

  lemma NamesFilled(dep: Object, s: Strategy)
    requires !Removes(s)
    ensures (Names(dep, s).0 == "" ==> dep.meta.name == "") && (Names(dep, s).1 == "" ==> dep.meta.name == "")
    ensures RouteKey(dep, s).Some? && RouteKey(dep, s).value.name == "" ==> dep.meta.name == ""
  {
    if s.stype.Canary? {
      CompletedCanary(dep, s);
    }
  }

  lemma NamesGivenIs(dir: Dir, dep: Object, s: Strategy)
    requires !Removes(s) && dep.body.DeploymentBody?
    ensures NamesGiven(dir, dep, s) <==>
            && (dep.meta.name != "" ||
                (Present(OBJECTS, dir, ServiceKey("")) && Present(OBJECTS, dir, RolloutKey(dep))))
            && (RouteKey(dep, s).Some? && RouteKey(dep, s).value.name == "" ==>
                  Present(OBJECTS, dir, RouteKey(dep, s).value))
  {
    NamesFilled(dep, s);
    NamesAsked(dep, s);
    if NamesGiven(dir, dep, s) {
      assert Creates(dep, s, ServiceKey(dep.meta.name)) && Creates(dep, s, RolloutKey(dep));
      assert RouteKey(dep, s).Some? ==> Creates(dep, s, RouteKey(dep, s).value);
    }
  }

  /** A canary or blue-green setting succeeds if and only if the deployment's service is there or has a port to be made
      from, and everything to be created has a name. Without a port it fails before anything is written. */
  lemma SucceedsExactlyWhen(dir: Dir, dep: Object, s: Strategy)
    requires UniqueKeys(OBJECTS, dir) && MainDeployment(Yamls(dir)) == Some(dep) && !Removes(s)
    ensures ErrorOf(dir, s) ==
            if !Servable(dir, dep) then Some(NoPorts) else if !NamesGiven(dir, dep, s) then Some(BadRequest) else None
    ensures !Servable(dir, dep) ==> After(dir, s) == dir
  {
    var snap := Yamls(dir);
    var (a, b) := Names(dep, s);
    NamesAsked(dep, s);
    NamesFilled(dep, s);
    NamesGivenIs(dir, dep, s);
    NoPortsListed(dep.body.deployment.template.containers);
    SnapshotWhere(OBJECTS, dir, ServiceKey(dep.meta.name));
    SnapshotWhere(OBJECTS, dir, RolloutKey(dep));
    if RouteKey(dep, s).Some? {
      SnapshotWhere(OBJECTS, dir, RouteKey(dep, s).value);
    }
    ServicesError(snap, dep, a, b);
    RoutingError(snap, dep, s);
    RolloutError(snap, dep, Wanted(dep, s));
    PreparationParts(snap, dep, s);
    TemporaryEffect(snap, dep, s);
  }
}
