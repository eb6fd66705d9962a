/** What setting a deployment strategy writes, as a function of the snapshot its transaction opened with
    (pkg/apps/application/processor_deploy_strategy.go). */
module StrategySpec {
  import opened Wrappers
  import opened ManifestStore
  import opened Routes
  import opened Workloads

  type Snapshot = Directory<Object>

  // ---- Filling in what the user left out ----

  const CANARY_SUFFIX := "-canary"
  const DEFAULT_STEP_INIT_WEIGHT := 10
  const ANALYSIS_ARG_SERVICE_NAME := "service-name"
  const ANALYSIS_ARG_NAMESPACE := "namespace"
  const NAMESPACE_PATH := "metadata.namespace"

  predicate IsSpace(c: char) {
    c in {'\t', '\n', '\U{000B}', '\U{000C}', '\r', ' ', '\U{0085}', '\U{00A0}', '\U{1680}', '\U{2028}', '\U{2029}',
          '\U{202F}', '\U{205F}', '\U{3000}'} || '\U{2000}' <= c <= '\U{200A}'
  }

  /** strings.TrimSpace leaves nothing. */
  predicate IsBlank(s: string) {
    forall i :: 0 <= i < |s| ==> IsSpace(s[i])
  }

  function DefaultArg(arg: AnalysisArg, service: string): AnalysisArg {
    if arg.name == ANALYSIS_ARG_SERVICE_NAME && IsBlank(arg.value) then arg.(value := service)
    else if arg.name == ANALYSIS_ARG_NAMESPACE && IsBlank(arg.value) then
      arg.(value := "", fieldPath := Some(NAMESPACE_PATH))
    else arg
  }

  function DefaultArgs(args: seq<AnalysisArg>, service: string): seq<AnalysisArg> {
    seq(|args|, i requires 0 <= i < |args| => DefaultArg(args[i], service))
  }

  function DefaultAnalysis(a: Option<Analysis>, service: string): Option<Analysis> {
    match a
    case None => None
    case Some(analysis) => Some(analysis.(args := DefaultArgs(analysis.args, service)))
  }

  /** A first weight and a pause without end are added until there are two steps. */
  function CompleteSteps(steps: seq<CanaryStep>): seq<CanaryStep> {
    var started := if steps == [] then [SetWeight(DEFAULT_STEP_INIT_WEIGHT)] else steps;
    if |started| == 1 then started + [Pause(None)] else started
  }

  function Or(s: string, default: string): string {
    if s == "" then default else s
  }

  function CompleteVirtualService(vs: ExtendedVirtualService, stable: string): ExtendedVirtualService {
    vs.(name := Or(vs.name, stable), routes := if vs.routes == [] then ["canary"] else vs.routes)
  }

  function CompleteRouting(tr: Option<ExtendedTrafficRouting>, stable: string): Option<ExtendedTrafficRouting> {
    if tr.Some? && tr.value.istio.Some? then
      Some(tr.value.(istio := Some(CompleteVirtualService(tr.value.istio.value, stable))))
    else tr
  }

  /** The canary strategy the rollout is made from. */
  function CompleteCanary(dep: Object, canary: ExtendedCanaryStrategy): ExtendedCanaryStrategy {
    var stable := Or(canary.stableService, dep.meta.name);
    var next := Or(canary.canaryService, dep.meta.name + CANARY_SUFFIX);
    canary.(canaryService := next,
            stableService := stable,
            steps := CompleteSteps(canary.steps),
            analysis := DefaultAnalysis(canary.analysis, next),
            trafficRouting := CompleteRouting(canary.trafficRouting, stable))
  }

  function CompleteBlueGreen(dep: Object, bg: BlueGreenStrategy): BlueGreenStrategy {
    var preview := Or(bg.previewService, dep.meta.name);
    bg.(activeService := Or(bg.activeService, dep.meta.name + CANARY_SUFFIX),
        previewService := preview,
        prePromotionAnalysis := DefaultAnalysis(bg.prePromotionAnalysis, preview))
  }

  const EMPTY_CANARY := ExtendedCanaryStrategy("", "", [], None, None, "")
  const EMPTY_BLUE_GREEN := BlueGreenStrategy("", "", None, "")

  // ---- Services ----

  function SelectorLabels(labels: StringMap): StringMap {
    map k | k in labels && k != ISTIO_VERSION :: labels[k]
  }

  function PortsOf(ports: seq<ContainerPort>): seq<ServicePort> {
    seq(|ports|, i requires 0 <= i < |ports| =>
          ServicePort(ports[i].name, ports[i].protocol, ports[i].port, ports[i].port))
  }

  function AllPorts(containers: seq<Container>): seq<ServicePort> {
    if containers == [] then []
    else AllPorts(containers[..|containers| - 1]) + PortsOf(containers[|containers| - 1].ports)
  }

  function NewService(dep: Object): Object
    requires dep.body.DeploymentBody?
  {
    var template := dep.body.deployment.template;
    Object(Meta(dep.meta.name, dep.meta.namespace, map[], MARK, []),
           ServiceBody(ServiceSpec(AllPorts(template.containers), SelectorLabels(template.labels), "", "", "", "")),
           None)
  }

  function CopyService(stable: Object, name: string): Object
    requires stable.body.ServiceBody?
  {
    Object(Meta(name, stable.meta.namespace, stable.meta.labels, stable.meta.annotations[GENERATED_BY := ROLLOUTS],
                stable.meta.finalizers),
           ServiceBody(stable.body.service.(rest := "")),
           None)
  }

  function ServiceKey(name: string): Key {
    Key(Service, name)
  }

  ghost function CreateIfAbsent(snap: Snapshot, o: Object): Effect<Object> {
    if Present(OBJECTS, snap, o.Key()) then Done() else CreateEffect(OBJECTS, snap, o)
  }

  /** Decoding into a list reuses its elements. */
  function Overlaid(old': seq<string>, found: seq<string>): seq<string> {
    seq(|old'|, i requires 0 <= i < |old'| => if i < |found| then found[i] else old'[i])
  }

  /** What copying leaves of the stable service in memory. The copy shares its labels, annotations and finalizers, is
      marked, and an existing copy is decoded into it; only a missing map is not shared. */
  function Mingle(stable: Object, found: Option<Object>): (o: Object)
    ensures o.body == stable.body && o.meta.name == stable.meta.name && o.meta.namespace == stable.meta.namespace
  {
    var m := stable.meta;
    var theirs := if found.Some? then found.value.meta else Meta("", "", map[], map[], []);
    stable.(meta := m.(labels := if m.labels == map[] then m.labels else m.labels + theirs.labels,
                       annotations := if m.annotations == map[] then m.annotations
                                      else m.annotations[GENERATED_BY := ROLLOUTS] + theirs.annotations,
                       finalizers := Overlaid(m.finalizers, theirs.finalizers)))
  }

  /** The stable service in memory after these copies were made or found. */
  ghost function Mingled(snap: Snapshot, stable: Object, names: seq<string>): (o: Object)
    ensures o.body == stable.body && o.meta.name == stable.meta.name && o.meta.namespace == stable.meta.namespace
  {
    if names == [] then stable
    else
      var before, last := Mingled(snap, stable, names[..|names| - 1]), names[|names| - 1];
      if last == stable.meta.name then before else Mingle(before, Read(OBJECTS, snap, ServiceKey(last)))
  }

  ghost function CopiesEffect(snap: Snapshot, stable: Object, names: seq<string>): Effect<Object>
    requires stable.body.ServiceBody?
  {
    if names == [] then Done()
    else
      var less, last := names[..|names| - 1], names[|names| - 1];
      Then(CopiesEffect(snap, stable, less),
           if last == stable.meta.name then Done()
           else CreateIfAbsent(snap, CopyService(Mingled(snap, stable, less), last)))
  }

  /** The service bearing the deployment's name, read or newly made. */
  ghost function StableService(snap: Snapshot, dep: Object): (o: Object)
    requires dep.body.DeploymentBody?
    ensures o.body.ServiceBody? && o.meta.name == dep.meta.name
  {
    var found := Read(OBJECTS, snap, ServiceKey(dep.meta.name));
    if found.Some? then found.value else NewService(dep)
  }

  ghost function ServicesEffect(snap: Snapshot, dep: Object, names: seq<string>): Effect<Object>
    requires dep.body.DeploymentBody?
  {
    var stable := StableService(snap, dep);
    if !Present(OBJECTS, snap, ServiceKey(dep.meta.name)) && stable.body.service.ports == [] then Fails(NoPorts)
    else Then(CreateIfAbsent(snap, stable), CopiesEffect(snap, stable, names))
  }

  // ---- The VirtualService ----

  function CanaryRoute(name: string, stable: string, next: string, vs: ExtendedVirtualService): HttpRoute {
    HttpRoute(name,
              if vs.headers != map[] || vs.uri.Some? then [HttpMatch(vs.headers, vs.uri, vs.ignoreUriCase, "")] else [],
              [Destination(stable, 100, ""), Destination(next, 0, "")],
              "")
  }

  function NewVirtualService(dep: Object, stable: string, next: string, vs: ExtendedVirtualService): Object
    requires vs.routes != []
  {
    Object(Meta(vs.name, dep.meta.namespace, map[], MARK, []),
           VirtualServiceBody(VirtualServiceSpec(
             [stable],
             [CanaryRoute(vs.routes[0], stable, next, vs), HttpRoute("", [], [Destination(stable, 0, "")], "")],
             "")),
           None)
  }

  function WithRoutes(o: Object, http: seq<HttpRoute>): Object
    requires o.body.VirtualServiceBody?
  {
    o.(body := VirtualServiceBody(o.body.virtualService.(http := http)))
  }

  ghost function IstioEffect(snap: Snapshot, dep: Object, stable: string, next: string, vs: ExtendedVirtualService)
    : Effect<Object>
    requires vs.routes != []
  {
    var target := NewVirtualService(dep, stable, next, vs);
    match Read(OBJECTS, snap, target.Key())
    case None => CreateEffect(OBJECTS, snap, target)
    case Some(exist) =>
      var placed := Placed(exist.body.virtualService.http, target.body.virtualService.http[0]);
      if placed.1 then UpdateEffect(OBJECTS, snap, WithRoutes(exist, placed.0)) else Done()
  }

  ghost function CanaryEffect(snap: Snapshot, dep: Object, canary: ExtendedCanaryStrategy): Effect<Object>
    requires dep.body.DeploymentBody?
  {
    var c := CompleteCanary(dep, canary);
    Then(ServicesEffect(snap, dep, [c.stableService, c.canaryService]),
         if c.trafficRouting.Some? && c.trafficRouting.value.istio.Some? then
           IstioEffect(snap, dep, c.stableService, c.canaryService, c.trafficRouting.value.istio.value)
         else Done())
  }

  ghost function BlueGreenEffect(snap: Snapshot, dep: Object, blueGreen: BlueGreenStrategy): Effect<Object>
    requires dep.body.DeploymentBody?
  {
    var bg := CompleteBlueGreen(dep, blueGreen);
    ServicesEffect(snap, dep, [bg.activeService, bg.previewService])
  }

  // ---- The Rollout ----

  function RolloutKey(dep: Object): Key {
    Key(Rollout, dep.meta.name)
  }

  function NewRollout(dep: Object, strategy: RolloutStrategy, replicas: Option<int>): Object
    requires dep.body.DeploymentBody?
  {
    Object(Meta(dep.meta.name, dep.meta.namespace, map[], MARK, []),
           RolloutBody(RolloutSpec(replicas, dep.body.deployment.selector, Some(dep.meta.name), true, strategy, "")),
           None)
  }

  /** An existing rollout keeps its annotations and replicas; the rest of its spec is replaced. */
  function WithRollout(exist: Object, rollout: Object): Object
    requires exist.body.RolloutBody? && rollout.body.RolloutBody?
  {
    exist.(body := RolloutBody(rollout.body.rollout.(replicas := exist.body.rollout.replicas)))
  }

  ghost function EnsureRolloutEffect(snap: Snapshot, dep: Object, strategy: RolloutStrategy): Effect<Object>
    requires dep.body.DeploymentBody?
  {
    var found := Read(OBJECTS, snap, Key(Deployment, dep.meta.name));
    var rollout := NewRollout(dep, strategy, if found.Some? then found.value.body.deployment.replicas else None);
    match Read(OBJECTS, snap, RolloutKey(dep))
    case None => CreateEffect(OBJECTS, snap, rollout)
    case Some(exist) => UpdateEffect(OBJECTS, snap, WithRollout(exist, rollout))
  }

  /** The files whose resources were generated for a rollout. */
  ghost function GeneratedFiles(snap: Snapshot): set<string> {
    set f | f in snap && IsYaml(f) && snap[f].Resource? && Generated(snap[f].doc)
  }

  function Removals(names: seq<string>, snap: Snapshot): seq<Write<Object>>
    requires forall f :: f in names ==> f in snap && snap[f].Resource?
  {
    seq(|names|, i requires 0 <= i < |names| => Remove(names[i], snap[names[i]].doc.Key()))
  }

  /** The elements of a set in some order; which one does not matter. */
  ghost function Listing(names: set<string>): (listing: seq<string>)
    ensures forall f :: f in listing <==> f in names
  {
    if names == {} then []
    else
      var f :| f in names;
      [f] + Listing(names - {f})
  }

  ghost function CleanEffect(snap: Snapshot): Effect<Object> {
    Effect(Removals(Listing(GeneratedFiles(snap)), snap), None)
  }

  ghost function RolloutEffect(snap: Snapshot, dep: Object, s: Strategy): Effect<Object>
    requires dep.body.DeploymentBody?
  {
    match s.stype
    case Canary =>
      var canary := if s.canary.Some? then s.canary.value else EMPTY_CANARY;
      Then(CanaryEffect(snap, dep, canary),
           EnsureRolloutEffect(snap, dep, RolloutStrategy(Some(CompleteCanary(dep, canary).ToCanaryStrategy()), None)))
    case BlueGreen =>
      var bg := if s.blueGreen.Some? then s.blueGreen.value else EMPTY_BLUE_GREEN;
      Then(BlueGreenEffect(snap, dep, bg),
           EnsureRolloutEffect(snap, dep, RolloutStrategy(None, Some(CompleteBlueGreen(dep, bg)))))
    case _ => CleanEffect(snap)
  }

  // ---- The Deployment ----

  ghost predicate HoldsDeployment(snap: Snapshot, f: string) {
    f in snap && IsYaml(f) && snap[f].Resource? && snap[f].doc.body.DeploymentBody?
  }

  /** The application's only deployment, if there is exactly one file with one. */
  ghost function MainDeployment(snap: Snapshot): (dep: Option<Object>)
    ensures dep.Some? ==> dep.value.body.DeploymentBody?
  {
    if f :| HoldsDeployment(snap, f) && forall g :: HoldsDeployment(snap, g) ==> g == f then Some(snap[f].doc) else None
  }

  function WithStrategy(dep: Object, s: Strategy): Object
    requires dep.body.DeploymentBody?
  {
    dep.(body := DeploymentBody(dep.body.deployment.(strategy :=
           UpdateStrategy(s.stype, if s.stype == RollingUpdate then s.rolling else None))))
  }

  /** The deployment is only written when its strategy type changes. */
  ghost function DeploymentEffect(snap: Snapshot, dep: Object, s: Strategy): Effect<Object>
    requires dep.body.DeploymentBody?
  {
    if (s.stype.RollingUpdate? || s.stype.Recreate?) && dep.body.deployment.strategy.stype != s.stype then
      UpdateEffect(OBJECTS, snap, WithStrategy(dep, s))
    else Done()
  }

  /** The whole transaction of PrepareDeploymentStrategy. */
  ghost function StrategyEffect(snap: Snapshot, s: Strategy): Effect<Object> {
    match MainDeployment(snap)
    case None => Fails(NoMainDeployment)
    case Some(dep) => Then(DeploymentEffect(snap, dep, s), RolloutEffect(snap, dep, s))
  }

  // ---- Reading the strategy back ----

  /** The rollout of the deployment's name decides, without one the deployment. */
  function ParsedFrom(dep: Object, rollout: Option<Object>): Strategy
    requires dep.body.DeploymentBody? && (rollout.Some? ==> rollout.value.body.RolloutBody?)
  {
    match rollout
    case None => Strategy(dep.body.deployment.strategy.stype, None, None, dep.body.deployment.strategy.rolling)
    case Some(r) =>
      var rs := r.body.rollout.strategy;
      if rs.canary.Some? then Strategy(Canary, Some(ExtendCanaryStrategy(rs.canary.value)), None, None)
      else if rs.blueGreen.Some? then Strategy(BlueGreen, None, rs.blueGreen, None)
      else Strategy(Unset, None, None, None)
  }

  /** ParseUpdateStrategyAndDeployment. */
  ghost function ParseStrategy(snap: Snapshot): Option<Strategy> {
    match MainDeployment(snap)
    case None => None
    case Some(dep) => Some(ParsedFrom(dep, Read(OBJECTS, snap, RolloutKey(dep))))
  }
}
