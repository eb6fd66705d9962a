/** The Kubernetes resources the deployment strategies read and write, by the fields those look at. Whatever else an
    object holds is carried along as `rest`. */
module Workloads {
  import opened Wrappers
  import opened ManifestStore
  import opened Routes

  type StringMap = map<string, string>

  const GENERATED_BY := "application.kubegems.io/is-generated-by"
  const ROLLOUTS := "rollouts"
  const ISTIO_VERSION := "version"

  datatype Meta = Meta(
    name: string,
    namespace: string,
    labels: StringMap,
    annotations: StringMap,
    finalizers: seq<string>)

  datatype StrategyType = Unset | RollingUpdate | Recreate | Canary | BlueGreen | OtherType(name: string)

  datatype RollingParameters = RollingParameters(maxUnavailable: string, maxSurge: string)

  datatype UpdateStrategy = UpdateStrategy(stype: StrategyType, rolling: Option<RollingParameters>)

  datatype ContainerPort = ContainerPort(name: string, protocol: string, port: int)

  datatype Container = Container(name: string, image: string, ports: seq<ContainerPort>)

  datatype PodTemplate = PodTemplate(labels: StringMap, containers: seq<Container>, rest: string)

  datatype DeploymentSpec = DeploymentSpec(
    replicas: Option<int>,
    selector: StringMap,
    strategy: UpdateStrategy,
    template: PodTemplate,
    rest: string)

  datatype ServicePort = ServicePort(name: string, protocol: string, port: int, targetPort: int)

  datatype ServiceSpec = ServiceSpec(
    ports: seq<ServicePort>,
    selector: StringMap,
    stype: string,
    sessionAffinity: string,
    externalTrafficPolicy: string,
    rest: string)

  datatype CanaryStep = SetWeight(weight: int) | Pause(duration: Option<string>) | OtherStep(what: string)

  datatype AnalysisArg = AnalysisArg(name: string, value: string, fieldPath: Option<string>)

  datatype Analysis = Analysis(args: seq<AnalysisArg>, rest: string)

  datatype VirtualServiceRef = VirtualServiceRef(name: string, routes: seq<string>)

  /** Argo's traffic routing; `Istio` is one of several ways. */
  datatype TrafficRouting = TrafficRouting(istio: Option<VirtualServiceRef>, rest: string)

  datatype CanaryStrategy = CanaryStrategy(
    canaryService: string,
    stableService: string,
    steps: seq<CanaryStep>,
    analysis: Option<Analysis>,
    trafficRouting: Option<TrafficRouting>,
    rest: string)

  datatype BlueGreenStrategy = BlueGreenStrategy(
    activeService: string,
    previewService: string,
    prePromotionAnalysis: Option<Analysis>,
    rest: string)

  datatype RolloutStrategy = RolloutStrategy(canary: Option<CanaryStrategy>, blueGreen: Option<BlueGreenStrategy>)

  datatype RolloutSpec = RolloutSpec(
    replicas: Option<int>,
    selector: StringMap,
    workloadRef: Option<string>,
    templateResolvedFromRef: bool,
    strategy: RolloutStrategy,
    rest: string)

  datatype VirtualServiceSpec = VirtualServiceSpec(hosts: seq<string>, http: seq<HttpRoute>, rest: string)

  datatype Body =
    | DeploymentBody(deployment: DeploymentSpec)
    | ServiceBody(service: ServiceSpec)
    | RolloutBody(rollout: RolloutSpec)
    | VirtualServiceBody(virtualService: VirtualServiceSpec)
    | OtherBody(group: string, version: string, kind: string, rest: string)
  {
    function Kind(): Kind {
      match this
      case DeploymentBody(_) => Deployment
      case ServiceBody(_) => Service
      case RolloutBody(_) => Rollout
      case VirtualServiceBody(_) => VirtualService
      case OtherBody(group, version, kind, _) => OtherKind(group, version, kind)
    }
  }

  datatype Object = Object(meta: Meta, body: Body, status: Option<string>) {
    function Key(): ManifestStore.Key {
      ManifestStore.Key.Key(body.Kind(), meta.name)
    }

    function Settled(): Object {
      this.(status := None)
    }
  }

  const OBJECTS: Codec<Object> := Codec((o: Object) => o.Key(), (o: Object) => o.Settled())

  /** The resource was made by the platform for the sake of a rollout. */
  predicate Generated(o: Object) {
    GENERATED_BY in o.meta.annotations && o.meta.annotations[GENERATED_BY] == ROLLOUTS
  }

  /** The same deployment but for its strategy; at most its status is gone. */
  predicate SameButStrategy(before: Object, after: Object) {
    && before.body.DeploymentBody? && after.body.DeploymentBody?
    && after.meta == before.meta && (after.status == before.status || after.status.None?)
    && var a, b := after.body.deployment, before.body.deployment;
       a.replicas == b.replicas && a.selector == b.selector && a.template == b.template && a.rest == b.rest
  }

  const MARK: StringMap := map[GENERATED_BY := ROLLOUTS]

  // ---- The extended canary strategy ----

  /** A VirtualService reference with the matches the platform adds to Argo's. */
  datatype ExtendedVirtualService = ExtendedVirtualService(
    name: string,
    routes: seq<string>,
    uri: Option<StringMatch>,
    headers: map<string, StringMatch>,
    ignoreUriCase: bool)

  datatype ExtendedTrafficRouting = ExtendedTrafficRouting(istio: Option<ExtendedVirtualService>, rest: string)

  datatype ExtendedCanaryStrategy = ExtendedCanaryStrategy(
    canaryService: string,
    stableService: string,
    steps: seq<CanaryStep>,
    analysis: Option<Analysis>,
    trafficRouting: Option<ExtendedTrafficRouting>,
    rest: string)
  {
    /** Argo's strategy has no place for the added matches, so they are dropped. */
    function ToCanaryStrategy(): CanaryStrategy {
      CanaryStrategy(
        canaryService, stableService, steps, analysis,
        match trafficRouting
        case None => None
        case Some(tr) =>
          Some(TrafficRouting(
                 match tr.istio
                 case None => None
                 case Some(vs) => Some(VirtualServiceRef(vs.name, vs.routes)),
                 tr.rest)),
        rest)
    }
  }

  function ExtendCanaryStrategy(from: CanaryStrategy): ExtendedCanaryStrategy {
    ExtendedCanaryStrategy(
      from.canaryService, from.stableService, from.steps, from.analysis,
      match from.trafficRouting
      case None => None
      case Some(tr) =>
        Some(ExtendedTrafficRouting(
               match tr.istio
               case None => None
               case Some(vs) => Some(ExtendedVirtualService(vs.name, vs.routes, None, map[], false)),
               tr.rest)),
      from.rest)
  }

  /** What a user asks for. */
  datatype Strategy = Strategy(
    stype: StrategyType,
    canary: Option<ExtendedCanaryStrategy>,
    blueGreen: Option<BlueGreenStrategy>,
    rolling: Option<RollingParameters>)
}
