/** The tenant network-policy reconciler (pkg/controller/controllers): labelled namespaces are folded into one action
    each, and every action creates, updates or deletes the policy named "default" of its namespace. */
module NetworkPolicy {
  import opened Wrappers

  /** The label keys the reconciler knows, and any other. */
  datatype LabelKey = Tenant | Project | Environment | Plugins | OtherKey(name: string)

  type Labels = map<LabelKey, string>

  predicate Has(l: Labels, key: LabelKey, value: string) {
    key in l && l[key] == value
  }

  /** A label read the way a Go map is: missing is "". */
  function Get(l: Labels, key: LabelKey): string {
    if key in l then l[key] else ""
  }

  /** maps.GetLabels with the common label keys. */
  function CommonLabels(l: Labels): Labels {
    map k | k in l && k in {Tenant, Project, Environment} :: l[k]
  }

  /** A block of addresses, by its first and last. */
  datatype Cidr = Cidr(first: nat, last: nat) {
    predicate Contains(ip: nat) { first <= ip <= last }
  }

  const EVERYWHERE := Cidr(0, 0xFFFF_FFFF)

  datatype Requirement = Exists(key: LabelKey) | In(key: LabelKey, values: seq<string>)

  datatype Peer = IpBlock(cidr: Cidr, except: seq<Cidr>) | NamespaceSelector(matchExpressions: seq<Requirement>)

  datatype Rule = Rule(from: seq<Peer>)

  /** A policy selecting every pod of its namespace for ingress. */
  datatype Policy = Policy(labels: Labels, ingress: seq<Rule>)

  datatype PolicyKey = PolicyKey(namespace: string, name: string)

  const DEFAULT := "default"

  function DefaultIngress(cidrs: seq<Cidr>, selectors: seq<Requirement>): seq<Rule> {
    [Rule([IpBlock(EVERYWHERE, cidrs)]),
     Rule([NamespaceSelector([Exists(Plugins)])]),
     Rule([NamespaceSelector(selectors)])]
  }

  lemma WithSelectors(cidrs: seq<Cidr>, before: seq<Requirement>, after: seq<Requirement>)
    ensures var rules := DefaultIngress(cidrs, before);
            rules[2 := Rule(rules[2].from[0 := NamespaceSelector(after)])] == DefaultIngress(cidrs, after)
  {
    assert DefaultIngress(cidrs, before)[2].from[0 := NamespaceSelector(after)] == [NamespaceSelector(after)];
  }

  /** The object a policy is prepared in before it is sent to the API server. */
  class PolicyObject {
    const key: PolicyKey
    var labels: Labels
    var ingress: seq<Rule>

    /** DefaultNetworkPolicy. */
    constructor (namespace: string, name: string, cidrs: seq<Cidr>)
      ensures key == PolicyKey(namespace, name) && labels == map[] && ingress == DefaultIngress(cidrs, [])
    {
      key := PolicyKey(namespace, name);
      labels := map[];
      ingress := DefaultIngress(cidrs, []);
    }

    predicate Valid()
      reads this
    {
      |ingress| >= 3 && |ingress[2].from| > 0
    }

    /** The match expressions the helpers below edit; they assume the first peer of the third rule is a selector. */
    function Selectors(): seq<Requirement>
      reads this
      requires Valid() && ingress[2].from[0].NamespaceSelector?
    {
      ingress[2].from[0].matchExpressions
    }

    method SetSelectors(selectors: seq<Requirement>)
      requires Valid() && ingress[2].from[0].NamespaceSelector?
      modifies this`ingress
      ensures Valid() && ingress[2].from[0].NamespaceSelector? && Selectors() == selectors
      ensures ingress == old(ingress)[2 := Rule(old(ingress[2].from)[0 := NamespaceSelector(selectors)])]
    {
      ingress := ingress[2 := Rule(ingress[2].from[0 := NamespaceSelector(selectors)])];
    }

    predicate HasKindLabel(kind: LabelKey)
      reads this
      requires Valid() && ingress[2].from[0].NamespaceSelector?
    {
      exists i :: 0 <= i < |Selectors()| && Selectors()[i].key == kind
    }

    method AddNamespaceSelector(kind: LabelKey, value: string)
      requires Valid() ==> ingress[2].from[0].NamespaceSelector?
      modifies this`ingress
      ensures !old(Valid()) ==> ingress == old(ingress)
      ensures old(Valid()) ==>
                && Valid() && ingress[2].from[0].NamespaceSelector?
                && Selectors() == (if old(HasKindLabel(kind)) then old(Selectors())
                                   else old(Selectors()) + [In(kind, [value])])
                && ingress == old(ingress)[2 := Rule(old(ingress[2].from)[0 := NamespaceSelector(Selectors())])]
    {
      if !Valid() {
        return;
      }
      if HasKindLabel(kind) {
        assert ingress[2].from[0 := NamespaceSelector(Selectors())] == ingress[2].from;
        return;
      }
      SetSelectors(Selectors() + [In(kind, [value])]);
    }

    /** Takes out the last requirement on `kind`; after an AddNamespaceSelector that added one, it undoes it. */
    method DelNamespaceSelector(kind: LabelKey)
      requires Valid() ==> ingress[2].from[0].NamespaceSelector?
      modifies this`ingress
      ensures !old(Valid()) || !old(HasKindLabel(kind)) ==> ingress == old(ingress)
      ensures old(Valid()) && old(HasKindLabel(kind)) ==>
                && Valid() && ingress[2].from[0].NamespaceSelector?
                && exists i :: 0 <= i < |old(Selectors())|
                     && old(Selectors())[i].key == kind
                     && (forall j :: i < j < |old(Selectors())| ==> old(Selectors())[j].key != kind)
                     && Selectors() == old(Selectors())[..i] + old(Selectors())[i + 1..]
      ensures old(Valid()) && old(HasKindLabel(kind)) ==>
                ingress == old(ingress)[2 := Rule(old(ingress[2].from)[0 := NamespaceSelector(Selectors())])]
    {
      if !Valid() {
        return;
      }
      var origin := Selectors();
      var index := -1;
      for idx := 0 to |origin|
        invariant index == -1 ==> forall j :: 0 <= j < idx ==> origin[j].key != kind
        invariant index != -1 ==>
                    && 0 <= index < idx && origin[index].key == kind
                    && forall j :: index < j < idx ==> origin[j].key != kind
      {
        if origin[idx].key == kind {
          index := idx;
        }
      }
      if index != -1 {
        SetSelectors(origin[..index] + origin[index + 1..]);
      }
    }
  }

  datatype TenantSpec = TenantSpec(
    tenant: string,
    tenantIsolated: bool,
    projects: seq<string>,
    environments: seq<string>)

  datatype TenantNetworkPolicy = TenantNetworkPolicy(
    labels: Labels,
    spec: TenantSpec,
    deleting: bool,
    finalizers: set<string>)

  const FINALIZER := "finalizer.gems.kubegems.io/networkpolicy"

  datatype Verb = Nothing | Create | Update | Delete

  datatype Action = Action(
    tenantIso: bool,
    projectIso: bool,
    environmentIso: bool,
    tenant: string,
    project: string,
    environment: string,
    origin: Option<Policy>,
    modified: Option<Policy>,
    labels: Labels,
    verb: Verb)

  const EMPTY_ACTION := Action(false, false, false, "", "", "", None, None, map[], Nothing)

  /** One labelled pass: every namespace with this label takes this flag. */
  datatype Pass = Pass(key: LabelKey, value: string, isolated: bool)

  /** A policy `o` asks for nothing that `m` lacks: empty parts of `o` do not count. */
  predicate DeepDerivative(o: Policy, m: Policy) {
    && |o.labels| <= |m.labels|
    && (forall k | k in o.labels :: k in m.labels && m.labels[k] == o.labels[k])
    && (o.ingress == [] || o.ingress == m.ingress)
  }

  // ---- What a reconcile should do, namespace by namespace ----

  /** The requirements a namespace's policy puts on peers, one per enabled level. */
  function Levels(spec: TenantSpec, l: Labels): (bool, bool, bool) {
    (Has(l, Tenant, spec.tenant) && spec.tenantIsolated,
     Project in l && l[Project] in spec.projects,
     Environment in l && l[Environment] in spec.environments)
  }

  predicate Isolated(spec: TenantSpec, l: Labels) {
    Levels(spec, l).0 || Levels(spec, l).1 || Levels(spec, l).2
  }

  predicate InScope(spec: TenantSpec, l: Labels) {
    Has(l, Tenant, spec.tenant) || Levels(spec, l).1 || Levels(spec, l).2
  }

  /** The label by which the passes first meet a namespace in scope. */
  function FirstKey(spec: TenantSpec, l: Labels): LabelKey {
    if Has(l, Tenant, spec.tenant) then Tenant else if Levels(spec, l).1 then Project else Environment
  }

  /** Some policy of the namespace carries the label. */
  ghost predicate Listed(policies: map<PolicyKey, Policy>, ns: string, key: LabelKey, value: string) {
    exists k :: k in policies && k.namespace == ns && Has(policies[k].labels, key, value)
  }

  /** The reconciler sees a policy of the namespace: one is listed by the pass that first meets the namespace. */
  ghost predicate Tracked(policies: map<PolicyKey, Policy>, spec: TenantSpec, ns: string, l: Labels) {
    Listed(policies, ns, FirstKey(spec, l), Get(l, FirstKey(spec, l)))
  }

  function Selectors(levels: (bool, bool, bool), l: Labels): seq<Requirement> {
    (if levels.0 then [In(Tenant, [Get(l, Tenant)])] else []) +
    (if levels.1 then [In(Project, [Get(l, Project)])] else []) +
    (if levels.2 then [In(Environment, [Get(l, Environment)])] else [])
  }

  lemma SelectorsGrow(levels: (bool, bool, bool), l: Labels)
    ensures Selectors((false, false, false), l) == []
    ensures Selectors((levels.0, false, false), l) ==
            if levels.0 then Selectors((false, false, false), l) + [In(Tenant, [Get(l, Tenant)])]
            else Selectors((false, false, false), l)
    ensures Selectors((levels.0, levels.1, false), l) ==
            if levels.1 then Selectors((levels.0, false, false), l) + [In(Project, [Get(l, Project)])]
            else Selectors((levels.0, false, false), l)
    ensures Selectors(levels, l) ==
            if levels.2 then Selectors((levels.0, levels.1, false), l) + [In(Environment, [Get(l, Environment)])]
            else Selectors((levels.0, levels.1, false), l)
  {
  }

  /** The policy an isolated namespace should have: a function of the three flags and the namespace's labels. */
  function Desired(levels: (bool, bool, bool), l: Labels, cidrs: seq<Cidr>): Policy {
    Policy(CommonLabels(l), DefaultIngress(cidrs, Selectors(levels, l)))
  }

  function Lookup(policies: map<PolicyKey, Policy>, k: PolicyKey): Option<Policy> {
    if k in policies then Some(policies[k]) else None
  }

  /** What becomes of the default policy of a namespace in scope. Creating over an existing policy and updating a
      missing one fail, and are only logged. */
  ghost function After(policies: map<PolicyKey, Policy>, spec: TenantSpec, ns: string, l: Labels, cidrs: seq<Cidr>)
    : Option<Policy>
  {
    var current := Lookup(policies, PolicyKey(ns, DEFAULT));
    var tracked := Tracked(policies, spec, ns, l);
    if Isolated(spec, l) then
      if tracked == current.Some? then Some(Desired(Levels(spec, l), l, cidrs)) else current
    else if tracked then None
    else current
  }

  ghost function AfterAt(namespaces: map<string, Labels>, policies: map<PolicyKey, Policy>, spec: TenantSpec,
                         cidrs: seq<Cidr>, k: PolicyKey): Option<Policy>
  {
    if k.name == DEFAULT && k.namespace in namespaces && InScope(spec, namespaces[k.namespace]) then
      After(policies, spec, k.namespace, namespaces[k.namespace], cidrs)
    else
      Lookup(policies, k)
  }

  ghost function DefaultKeys(namespaces: map<string, Labels>): set<PolicyKey> {
    set ns | ns in namespaces :: PolicyKey(ns, DEFAULT)
  }

  /** All policies after one successful reconcile. */
  ghost function Settled(namespaces: map<string, Labels>, policies: map<PolicyKey, Policy>, spec: TenantSpec,
                         cidrs: seq<Cidr>): map<PolicyKey, Policy>
  {
    map k | k in policies.Keys + DefaultKeys(namespaces) && AfterAt(namespaces, policies, spec, cidrs, k).Some? ::
      AfterAt(namespaces, policies, spec, cidrs, k).value
  }

  lemma SettledLookup(namespaces: map<string, Labels>, policies: map<PolicyKey, Policy>, spec: TenantSpec,
                      cidrs: seq<Cidr>, k: PolicyKey)
    ensures Lookup(Settled(namespaces, policies, spec, cidrs), k) == AfterAt(namespaces, policies, spec, cidrs, k)
  {
  }

  lemma LookupExtensional(a: map<PolicyKey, Policy>, b: map<PolicyKey, Policy>)
    requires forall k :: Lookup(a, k) == Lookup(b, k)
    ensures a == b
  {
    forall k
      ensures k in a <==> k in b
      ensures k in a ==> a[k] == b[k]
    {
      assert Lookup(a, k) == Lookup(b, k);
    }
  }

  lemma SettledFrom(namespaces: map<string, Labels>, policies: map<PolicyKey, Policy>, spec: TenantSpec,
                    cidrs: seq<Cidr>, after: map<PolicyKey, Policy>)
    requires forall k :: Lookup(after, k) == AfterAt(namespaces, policies, spec, cidrs, k)
    ensures after == Settled(namespaces, policies, spec, cidrs)
  {
    forall k
      ensures Lookup(after, k) == Lookup(Settled(namespaces, policies, spec, cidrs), k)
    {
      SettledLookup(namespaces, policies, spec, cidrs, k);
    }
    LookupExtensional(after, Settled(namespaces, policies, spec, cidrs));
  }

  /** All policies but those that carry the tenant's label. */
  function Purged(policies: map<PolicyKey, Policy>, tenant: string): map<PolicyKey, Policy> {
    map k | k in policies && !Has(policies[k].labels, Tenant, tenant) :: policies[k]
  }

  // ---- The fold over the passes ----

  /** The tenant's pass, one for every isolated project, one for every isolated environment. */
  ghost function Passes(spec: TenantSpec): seq<Pass>
    decreases |spec.environments|, |spec.projects|
  {
    var e, p := |spec.environments| - 1, |spec.projects| - 1;
    if e >= 0 then
      Passes(spec.(environments := spec.environments[..e])) + [Pass(Environment, spec.environments[e], true)]
    else if p >= 0 then
      Passes(spec.(projects := spec.projects[..p])) + [Pass(Project, spec.projects[p], true)]
    else [Pass(Tenant, spec.tenant, spec.tenantIsolated)]
  }

  /** What the passes so far know of a namespace. */
  datatype Entry = Entry(tenantIso: bool, projectIso: bool, environmentIso: bool, tracked: bool)

  ghost function Fold(passes: seq<Pass>, policies: map<PolicyKey, Policy>, ns: string, l: Labels): Option<Entry> {
    if passes == [] then None
    else Learn(Fold(passes[..|passes| - 1], policies, ns, l), passes[|passes| - 1], policies, ns, l)
  }

  ghost function Flagged(e: Entry, p: Pass): Entry {
    match p.key
    case Tenant => e.(tenantIso := p.isolated)
    case Project => e.(projectIso := p.isolated)
    case Environment => e.(environmentIso := p.isolated)
    case _ => e
  }

  /** What all passes together know, whatever the order of the namespaces within a pass. */
  ghost function Known(spec: TenantSpec, policies: map<PolicyKey, Policy>, ns: string, l: Labels): Option<Entry> {
    if !InScope(spec, l) then None
    else
      var levels := Levels(spec, l);
      Some(Entry(levels.0, levels.1, levels.2, Tracked(policies, spec, ns, l)))
  }

  /** What one more pass makes of what was known. */
  ghost function Learn(before: Option<Entry>, p: Pass, policies: map<PolicyKey, Policy>, ns: string, l: Labels)
    : Option<Entry>
  {
    if !Has(l, p.key, p.value) then before
    else
      Some(Flagged(if before.Some? then before.value
                   else Entry(false, false, false, Listed(policies, ns, p.key, p.value)), p))
  }

  lemma FoldAppend(passes: seq<Pass>, p: Pass, policies: map<PolicyKey, Policy>, ns: string, l: Labels)
    ensures Fold(passes + [p], policies, ns, l) == Learn(Fold(passes, policies, ns, l), p, policies, ns, l)
  {
  }

  lemma KnownEnvironment(less: TenantSpec, e: string, policies: map<PolicyKey, Policy>, ns: string, l: Labels)
    ensures Known(less.(environments := less.environments + [e]), policies, ns, l) ==
            Learn(Known(less, policies, ns, l), Pass(Environment, e, true), policies, ns, l)
  {
  }

  lemma KnownProject(less: TenantSpec, p: string, policies: map<PolicyKey, Policy>, ns: string, l: Labels)
    requires less.environments == []
    ensures Known(less.(projects := less.projects + [p]), policies, ns, l) ==
            Learn(Known(less, policies, ns, l), Pass(Project, p, true), policies, ns, l)
  {
  }

  lemma PassesOfEnvironment(less: TenantSpec, e: string)
    ensures Passes(less.(environments := less.environments + [e])) == Passes(less) + [Pass(Environment, e, true)]
  {
  }

  lemma PassesOfProject(less: TenantSpec, p: string)
    requires less.environments == []
    ensures Passes(less.(projects := less.projects + [p])) == Passes(less) + [Pass(Project, p, true)]
  {
  }

  /** The spec with its first `n` projects and no environments. */
  function UpToProject(spec: TenantSpec, n: nat): TenantSpec
    requires n <= |spec.projects|
  {
    TenantSpec(spec.tenant, spec.tenantIsolated, spec.projects[..n], [])
  }

  /** The spec with its first `n` environments. */
  function UpToEnvironment(spec: TenantSpec, n: nat): TenantSpec
    requires n <= |spec.environments|
  {
    TenantSpec(spec.tenant, spec.tenantIsolated, spec.projects, spec.environments[..n])
  }

  lemma NextProject(spec: TenantSpec, i: nat)
    requires i < |spec.projects|
    ensures Passes(UpToProject(spec, i + 1)) == Passes(UpToProject(spec, i)) + [Pass(Project, spec.projects[i], true)]
  {
    assert spec.projects[..i + 1] == spec.projects[..i] + [spec.projects[i]];
    PassesOfProject(UpToProject(spec, i), spec.projects[i]);
  }

  lemma NextEnvironment(spec: TenantSpec, i: nat)
    requires i < |spec.environments|
    ensures Passes(UpToEnvironment(spec, i + 1)) ==
            Passes(UpToEnvironment(spec, i)) + [Pass(Environment, spec.environments[i], true)]
  {
    assert spec.environments[..i + 1] == spec.environments[..i] + [spec.environments[i]];
    PassesOfEnvironment(UpToEnvironment(spec, i), spec.environments[i]);
  }

  lemma AllProjects(spec: TenantSpec)
    ensures UpToProject(spec, |spec.projects|) == UpToEnvironment(spec, 0)
  {
    assert spec.projects[..|spec.projects|] == spec.projects;
  }

  lemma AllEnvironments(spec: TenantSpec)
    ensures UpToEnvironment(spec, |spec.environments|) == spec
  {
    assert spec.environments[..|spec.environments|] == spec.environments;
  }

  lemma {:induction false} FoldKnown(spec: TenantSpec, policies: map<PolicyKey, Policy>, ns: string, l: Labels)
    ensures Fold(Passes(spec), policies, ns, l) == Known(spec, policies, ns, l)
    decreases |spec.environments|, |spec.projects|
  {
    if spec.environments != [] {
      var e := |spec.environments| - 1;
      var less, last := spec.(environments := spec.environments[..e]), spec.environments[e];
      FoldKnown(less, policies, ns, l);
      assert spec == less.(environments := less.environments + [last]) by {
        assert spec.environments == less.environments + [last];
      }
      PassesOfEnvironment(less, last);
      FoldAppend(Passes(less), Pass(Environment, last, true), policies, ns, l);
      KnownEnvironment(less, last, policies, ns, l);
    } else if spec.projects != [] {
      FoldKnownProjects(spec, policies, ns, l);
    } else {
      FoldKnownTenant(spec, policies, ns, l);
    }
  }

  lemma {:induction false} FoldKnownProjects(spec: TenantSpec, policies: map<PolicyKey, Policy>, ns: string, l: Labels)
    requires spec.environments == []
    ensures Fold(Passes(spec), policies, ns, l) == Known(spec, policies, ns, l)
    decreases |spec.projects|
  {
    if spec.projects != [] {
      var p := |spec.projects| - 1;
      var less, last := spec.(projects := spec.projects[..p]), spec.projects[p];
      FoldKnownProjects(less, policies, ns, l);
      assert spec == less.(projects := less.projects + [last]) by {
        assert spec.projects == less.projects + [last];
      }
      PassesOfProject(less, last);
      FoldAppend(Passes(less), Pass(Project, last, true), policies, ns, l);
      KnownProject(less, last, policies, ns, l);
    } else {
      FoldKnownTenant(spec, policies, ns, l);
    }
  }

  lemma FoldKnownTenant(spec: TenantSpec, policies: map<PolicyKey, Policy>, ns: string, l: Labels)
    requires spec.environments == [] && spec.projects == []
    ensures Fold(Passes(spec), policies, ns, l) == Known(spec, policies, ns, l)
  {
  }

  ghost predicate Agrees(a: Action, e: Entry, l: Labels) {
    && a.tenantIso == e.tenantIso && a.projectIso == e.projectIso && a.environmentIso == e.environmentIso
    && a.origin.Some? == e.tracked
    && (a.origin.Some? ==> a.origin.value.labels != map[])
    && a.tenant == Get(l, Tenant) && a.project == Get(l, Project) && a.environment == Get(l, Environment)
    && a.labels == CommonLabels(l)
  }

  /** The status map holds this namespace if and only if the passes met it, with what they know of it. */
  ghost predicate RecordedAt(st: map<string, Action>, passes: seq<Pass>, ns: string, l: Labels,
                             policies: map<PolicyKey, Policy>)
  {
    var e := Fold(passes, policies, ns, l);
    (ns in st <==> e.Some?) && (ns in st ==> Agrees(st[ns], e.value, l))
  }

  ghost predicate Recorded(st: map<string, Action>, passes: seq<Pass>, namespaces: map<string, Labels>,
                           policies: map<PolicyKey, Policy>)
  {
    && (forall ns :: ns in st ==> ns in namespaces)
    && forall ns :: ns in namespaces ==> RecordedAt(st, passes, ns, namespaces[ns], policies)
  }

  lemma RecordedIsKnown(st: map<string, Action>, spec: TenantSpec, namespaces: map<string, Labels>,
                        policies: map<PolicyKey, Policy>)
    requires Recorded(st, Passes(spec), namespaces, policies)
    ensures forall ns :: ns in st ==> ns in namespaces
    ensures forall ns :: ns in namespaces ==> (ns in st <==> Known(spec, policies, ns, namespaces[ns]).Some?)
    ensures forall ns :: ns in st ==> Agrees(st[ns], Known(spec, policies, ns, namespaces[ns]).value, namespaces[ns])
  {
    forall ns | ns in namespaces
      ensures ns in st <==> Known(spec, policies, ns, namespaces[ns]).Some?
      ensures ns in st ==> Agrees(st[ns], Known(spec, policies, ns, namespaces[ns]).value, namespaces[ns])
    {
      FoldKnown(spec, policies, ns, namespaces[ns]);
      assert RecordedAt(st, Passes(spec), ns, namespaces[ns], policies);
    }
  }

  /** What a pass writes into the action of a namespace it meets. */
  function Meet(a: Action, pass: Pass, l: Labels): Action {
    var b := a.(tenant := Get(l, Tenant), project := Get(l, Project), environment := Get(l, Environment),
                labels := CommonLabels(l));
    match pass.key
    case Tenant => b.(tenantIso := pass.isolated)
    case Project => b.(projectIso := pass.isolated)
    case Environment => b.(environmentIso := pass.isolated)
    case _ => b
  }

  /** A fresh action agrees with what a first pass knows, up to the fields every pass sets. */
  lemma FlaggedAgrees(a: Action, e: Entry, pass: Pass, l: Labels)
    requires a.tenantIso == e.tenantIso && a.projectIso == e.projectIso && a.environmentIso == e.environmentIso
    requires a.origin.Some? == e.tracked && (a.origin.Some? ==> a.origin.value.labels != map[])
    ensures Agrees(Meet(a, pass, l), Flagged(e, pass), l)
  {
    match pass.key
    case Tenant =>
    case Project =>
    case Environment =>
    case _ =>
  }

  lemma MeetAgrees(st: map<string, Action>, passes: seq<Pass>, pass: Pass, ns: string, l: Labels,
                   policies: map<PolicyKey, Policy>, a: Action)
    requires RecordedAt(st, passes, ns, l, policies) && Has(l, pass.key, pass.value)
    requires if ns in st then a == st[ns]
             else a == EMPTY_ACTION.(origin := a.origin)
                  && a.origin.Some? == Listed(policies, ns, pass.key, pass.value)
                  && (a.origin.Some? ==> a.origin.value.labels != map[])
    ensures RecordedAt(st[ns := Meet(a, pass, l)], passes + [pass], ns, l, policies)
  {
    FoldAppend(passes, pass, policies, ns, l);
    var before := Fold(passes, policies, ns, l);
    var e := if before.Some? then before.value
             else Entry(false, false, false, Listed(policies, ns, pass.key, pass.value));
    FlaggedAgrees(a, e, pass, l);
  }

  lemma SkipAgrees(st: map<string, Action>, passes: seq<Pass>, pass: Pass, ns: string, l: Labels,
                   policies: map<PolicyKey, Policy>)
    requires RecordedAt(st, passes, ns, l, policies) && !Has(l, pass.key, pass.value)
    ensures RecordedAt(st, passes + [pass], ns, l, policies)
  {
  }

  /** In the middle of a pass: the namespaces in `done` were met by it, the others not yet. */
  ghost predicate Midway(st: map<string, Action>, passes: seq<Pass>, pass: Pass, done: seq<string>,
                         namespaces: map<string, Labels>, policies: map<PolicyKey, Policy>)
  {
    && (forall ns :: ns in st ==> ns in namespaces)
    && forall ns :: ns in namespaces ==>
         RecordedAt(st, if ns in done then passes + [pass] else passes, ns, namespaces[ns], policies)
  }

  lemma MidwayStep(st: map<string, Action>, passes: seq<Pass>, pass: Pass, done: seq<string>,
                   namespaces: map<string, Labels>, policies: map<PolicyKey, Policy>, ns: string, a: Action)
    requires Midway(st, passes, pass, done, namespaces, policies)
    requires ns in namespaces && ns !in done && Has(namespaces[ns], pass.key, pass.value)
    requires if ns in st then a == st[ns]
             else a == EMPTY_ACTION.(origin := a.origin)
                  && a.origin.Some? == Listed(policies, ns, pass.key, pass.value)
                  && (a.origin.Some? ==> a.origin.value.labels != map[])
    ensures Midway(st[ns := Meet(a, pass, namespaces[ns])], passes, pass, done + [ns], namespaces, policies)
  {
    MeetAgrees(st, passes, pass, ns, namespaces[ns], policies, a);
    var after := st[ns := Meet(a, pass, namespaces[ns])];
    forall other | other in namespaces
      ensures RecordedAt(after, if other in done + [ns] then passes + [pass] else passes, other, namespaces[other],
                         policies)
    {
      if other != ns {
        RecordedElsewhere(st, after, if other in done then passes + [pass] else passes, other, namespaces[other],
                          policies);
      }
    }
  }

  lemma RecordedElsewhere(before: map<string, Action>, after: map<string, Action>, passes: seq<Pass>, ns: string,
                          l: Labels, policies: map<PolicyKey, Policy>)
    requires RecordedAt(before, passes, ns, l, policies)
    requires (ns in after <==> ns in before) && (ns in before ==> after[ns] == before[ns])
    ensures RecordedAt(after, passes, ns, l, policies)
  {
  }

  lemma MidwayEnds(st: map<string, Action>, passes: seq<Pass>, pass: Pass, done: seq<string>,
                   namespaces: map<string, Labels>, policies: map<PolicyKey, Policy>)
    requires Midway(st, passes, pass, done, namespaces, policies)
    requires forall ns :: ns in namespaces && ns !in done ==> !Has(namespaces[ns], pass.key, pass.value)
    ensures Recorded(st, passes + [pass], namespaces, policies)
  {
    forall ns | ns in namespaces
      ensures RecordedAt(st, passes + [pass], ns, namespaces[ns], policies)
    {
      if ns !in done {
        SkipAgrees(st, passes, pass, ns, namespaces[ns], policies);
      }
    }
  }

  /** The finished action: its policy is the desired one without labels yet, its verb follows from the flags. */
  ghost predicate Planned(a: Action, e: Entry, l: Labels, cidrs: seq<Cidr>) {
    var levels := (e.tenantIso, e.projectIso, e.environmentIso);
    var isolated := levels.0 || levels.1 || levels.2;
    && a.modified == Some(Policy(map[], DefaultIngress(cidrs, Selectors(levels, l))))
    && a.labels == CommonLabels(l)
    && a.verb == if e.tracked then (if isolated then Update else Delete) else if isolated then Create else Nothing
  }

  /** The policy of a namespace's default key once its action was carried out. */
  ghost function Applied(current: Option<Policy>, a: Action): Option<Policy>
    requires a.modified.Some?
  {
    var written := a.modified.value.(labels := a.modified.value.labels + a.labels);
    match a.verb
    case Nothing => current
    case Create => if current.Some? then current else Some(written)
    case Update => if current.Some? then Some(written) else None
    case Delete => None
  }

  lemma AppliedIsAfter(policies: map<PolicyKey, Policy>, spec: TenantSpec, ns: string, l: Labels, cidrs: seq<Cidr>,
                       a: Action)
    requires InScope(spec, l) && Planned(a, Known(spec, policies, ns, l).value, l, cidrs)
    ensures Applied(Lookup(policies, PolicyKey(ns, DEFAULT)), a) == After(policies, spec, ns, l, cidrs)
  {
    assert map[] + CommonLabels(l) == CommonLabels(l);
  }

  /** The policy at this position is the last one listed of the namespace. */
  ghost predicate IsLastOf(listed: seq<PolicyKey>, ns: string, i: int) {
    0 <= i < |listed| && listed[i].namespace == ns && forall j :: i < j < |listed| ==> listed[j].namespace != ns
  }

  lemma LastOfMore(listed: seq<PolicyKey>, i: nat)
    requires i < |listed|
    ensures forall ns, j :: ns != listed[i].namespace && IsLastOf(listed[..i], ns, j) ==>
              IsLastOf(listed[..i + 1], ns, j)
  {
  }

  class Reconciler {
    var namespaces: map<string, Labels>
    var policies: map<PolicyKey, Policy>
    var tenants: map<string, TenantNetworkPolicy>
    var cidrs: seq<Cidr>

    constructor (namespaces: map<string, Labels>, policies: map<PolicyKey, Policy>,
                 tenants: map<string, TenantNetworkPolicy>, cidrs: seq<Cidr>)
      ensures this.namespaces == namespaces && this.policies == policies
      ensures this.tenants == tenants && this.cidrs == cidrs
    {
      this.namespaces := namespaces;
      this.policies := policies;
      this.tenants := tenants;
      this.cidrs := cidrs;
    }

    /** The namespaces with a label, in whatever order the API server lists them. */
    method ListNamespaces(key: LabelKey, value: string) returns (items: seq<string>)
      ensures forall ns :: ns in items <==> ns in namespaces && Has(namespaces[ns], key, value)
      ensures forall a, b :: 0 <= a < b < |items| ==> items[a] != items[b]
    {
      var rest := set ns | ns in namespaces && Has(namespaces[ns], key, value);
      ghost var all := rest;
      items := [];
      while rest != {}
        invariant rest <= all
        invariant forall ns :: ns in items <==> ns in all - rest
        invariant forall a, b :: 0 <= a < b < |items| ==> items[a] != items[b]
      {
        var ns :| ns in rest;
        assert forall a :: 0 <= a < |items| ==> items[a] in items && items[a] != ns;
        items := items + [ns];
        rest := rest - {ns};
      }
    }

    method ListPolicies(key: LabelKey, value: string) returns (items: seq<PolicyKey>)
      ensures forall k :: k in items <==> k in policies && Has(policies[k].labels, key, value)
    {
      var rest := set k | k in policies && Has(policies[k].labels, key, value);
      ghost var all := rest;
      items := [];
      while rest != {}
        invariant rest <= all
        invariant forall k :: k in items <==> k in all - rest
      {
        var k :| k in rest;
        items := items + [k];
        rest := rest - {k};
      }
    }

    /** The last listed policy of each namespace. */
    method PoliciesByNamespace(listed: seq<PolicyKey>) returns (npmap: map<string, Policy>)
      requires forall k :: k in listed ==> k in policies
      ensures forall k :: k in listed ==> k.namespace in npmap
      ensures forall ns :: ns in npmap ==> exists i :: IsLastOf(listed, ns, i) && npmap[ns] == policies[listed[i]]
    {
      npmap := map[];
      for i := 0 to |listed|
        invariant forall j :: 0 <= j < i ==> listed[j].namespace in npmap
        invariant forall ns :: ns in npmap ==>
                    exists j :: IsLastOf(listed[..i], ns, j) && npmap[ns] == policies[listed[j]]
      {
        var ns := listed[i].namespace;
        LastOfMore(listed, i);
        npmap := npmap[ns := policies[listed[i]]];
        assert IsLastOf(listed[..i + 1], ns, i);
      }
      assert listed[..|listed|] == listed;
    }

    /** One pass: handleRelatedObjectList. */
    method HandleRelatedObjectList(st: map<string, Action>, pass: Pass, ghost passes: seq<Pass>)
      returns (st': map<string, Action>)
      requires Recorded(st, passes, namespaces, policies)
      ensures Recorded(st', passes + [pass], namespaces, policies)
    {
      var nslist := ListNamespaces(pass.key, pass.value);
      var nplist := ListPolicies(pass.key, pass.value);
      var npmap := PoliciesByNamespace(nplist);
      st' := st;
      for i := 0 to |nslist|
        invariant Midway(st', passes, pass, nslist[..i], namespaces, policies)
      {
        var ns := nslist[i];
        assert ns in nslist && ns !in nslist[..i] && nslist[..i + 1] == nslist[..i] + [ns];
        var tmp := EMPTY_ACTION;
        if ns in st' {
          tmp := st'[ns];
        } else if ns in npmap {
          tmp := tmp.(origin := Some(npmap[ns]));
        }
        assert (exists k :: k in nplist && k.namespace == ns) <==> Listed(policies, ns, pass.key, pass.value);
        MidwayStep(st', passes, pass, nslist[..i], namespaces, policies, ns, tmp);
        st' := st'[ns := Meet(tmp, pass, namespaces[ns])];
      }
      assert nslist[..|nslist|] == nslist;
      MidwayEnds(st', passes, pass, nslist, namespaces, policies);
    }

    /** The policy with one selector per enabled level. */
    method Prepare(ns: string, action: Action, ghost levels: (bool, bool, bool), ghost l: Labels)
      returns (modified: Policy)
      requires levels == (action.tenantIso, action.projectIso, action.environmentIso)
      requires action.tenant == Get(l, Tenant) && action.project == Get(l, Project)
      requires action.environment == Get(l, Environment)
      ensures modified == Policy(map[], DefaultIngress(cidrs, Selectors(levels, l)))
    {
      var np := new PolicyObject(ns, DEFAULT, cidrs);
      SelectorsGrow(levels, l);
      if action.tenantIso {
        AddLevel(np, Tenant, action.tenant, Selectors((false, false, false), l));
      }
      if action.projectIso {
        AddLevel(np, Project, action.project, Selectors((levels.0, false, false), l));
      }
      if action.environmentIso {
        AddLevel(np, Environment, action.environment, Selectors((levels.0, levels.1, false), l));
      }
      modified := Policy(np.labels, np.ingress);
    }

    /** One more selector on a default policy that has `before`. */
    method AddLevel(np: PolicyObject, key: LabelKey, value: string, ghost before: seq<Requirement>)
      requires np.ingress == DefaultIngress(cidrs, before)
      requires forall i :: 0 <= i < |before| ==> before[i].key != key
      modifies np`ingress
      ensures np.ingress == DefaultIngress(cidrs, before + [In(key, [value])])
    {
      assert np.Selectors() == before;
      np.AddNamespaceSelector(key, value);
      WithSelectors(cidrs, before, before + [In(key, [value])]);
    }

    /** The prepared policy and the verb of one namespace. */
    method Plan(ns: string, action: Action, ghost e: Entry, ghost l: Labels) returns (a: Action)
      requires Agrees(action, e, l)
      ensures Planned(a, e, l, cidrs)
    {
      var modified := Prepare(ns, action, (e.tenantIso, e.projectIso, e.environmentIso), l);
      var verb := Nothing;
      if action.origin.None? {
        if action.environmentIso || action.projectIso || action.tenantIso {
          verb := Create;
        }
      } else if !action.environmentIso && !action.projectIso && !action.tenantIso {
        verb := Delete;
      } else if !DeepDerivative(action.origin.value, modified) {
        verb := Update;
      }
      a := action.(modified := Some(modified), verb := verb);
    }

    ghost predicate StatusOf(st: map<string, Action>, spec: TenantSpec)
      reads this
    {
      && (forall ns :: ns in st ==> ns in namespaces)
      && forall ns :: ns in namespaces ==>
           var known := Known(spec, policies, ns, namespaces[ns]);
           (ns in st <==> known.Some?) && (ns in st ==> Planned(st[ns], known.value, namespaces[ns], cidrs))
    }

    /** One pass per isolated project. */
    method RunProjectPasses(st0: map<string, Action>, spec: TenantSpec) returns (st: map<string, Action>)
      requires Recorded(st0, Passes(UpToProject(spec, 0)), namespaces, policies)
      ensures Recorded(st, Passes(UpToEnvironment(spec, 0)), namespaces, policies)
    {
      st := st0;
      for i := 0 to |spec.projects|
        invariant Recorded(st, Passes(UpToProject(spec, i)), namespaces, policies)
      {
        st := HandleRelatedObjectList(st, Pass(Project, spec.projects[i], true), Passes(UpToProject(spec, i)));
        NextProject(spec, i);
      }
      AllProjects(spec);
    }

    /** One pass per isolated environment. */
    method RunEnvironmentPasses(st0: map<string, Action>, spec: TenantSpec) returns (st: map<string, Action>)
      requires Recorded(st0, Passes(UpToEnvironment(spec, 0)), namespaces, policies)
      ensures Recorded(st, Passes(spec), namespaces, policies)
    {
      st := st0;
      for i := 0 to |spec.environments|
        invariant Recorded(st, Passes(UpToEnvironment(spec, i)), namespaces, policies)
      {
        st := HandleRelatedObjectList(st, Pass(Environment, spec.environments[i], true),
                                      Passes(UpToEnvironment(spec, i)));
        NextEnvironment(spec, i);
      }
      AllEnvironments(spec);
    }

    /** Prepares every recorded action; `known` is what the passes know of its namespace. */
    method PlanAll(st0: map<string, Action>, ghost known: map<string, Entry>) returns (st: map<string, Action>)
      requires forall ns :: ns in st0 ==> ns in namespaces && ns in known && Agrees(st0[ns], known[ns], namespaces[ns])
      ensures st.Keys == st0.Keys
      ensures forall ns :: ns in st ==> Planned(st[ns], known[ns], namespaces[ns], cidrs)
    {
      st := st0;
      var rest := st.Keys;
      while rest != {}
        invariant rest <= st.Keys == st0.Keys
        invariant forall ns :: ns in rest ==> st[ns] == st0[ns]
        invariant forall ns :: ns in st && ns !in rest ==> Planned(st[ns], known[ns], namespaces[ns], cidrs)
      {
        var ns :| ns in rest;
        var a := Plan(ns, st[ns], known[ns], namespaces[ns]);
        st := st[ns := a];
        rest := rest - {ns};
      }
    }

    /** One action per namespace in scope: handleStatusMap. */
    method HandleStatusMap(spec: TenantSpec) returns (st: map<string, Action>)
      ensures StatusOf(st, spec)
    {
      var tenantPass := Pass(Tenant, spec.tenant, spec.tenantIsolated);
      assert [] + [tenantPass] == Passes(UpToProject(spec, 0));
      st := HandleRelatedObjectList(map[], tenantPass, []);
      st := RunProjectPasses(st, spec);
      st := RunEnvironmentPasses(st, spec);
      RecordedIsKnown(st, spec, namespaces, policies);
      ghost var known := map ns | ns in st :: Known(spec, policies, ns, namespaces[ns]).value;
      st := PlanAll(st, known);
    }

    /** Carries out one action; a create over an existing policy, or an update of a missing one, only logs. */
    method Apply(ns: string, action: Action)
      requires action.modified.Some?
      modifies this`policies
      ensures Lookup(policies, PolicyKey(ns, DEFAULT)) == Applied(Lookup(old(policies), PolicyKey(ns, DEFAULT)), action)
      ensures forall k :: k != PolicyKey(ns, DEFAULT) ==> Lookup(policies, k) == Lookup(old(policies), k)
    {
      var k := PolicyKey(ns, DEFAULT);
      var written := action.modified.value.(labels := action.modified.value.labels + action.labels);
      match action.verb {
        case Create =>
          if k !in policies {
            policies := policies[k := written];
          }
        case Delete => policies := policies - {k};
        case Update =>
          if k in policies {
            policies := policies[k := written];
          }
        case Nothing =>
      }
    }

    /** Removes every policy that carries the tenant's label. */
    method DeleteLabelled(tenant: string)
      modifies this`policies
      ensures policies == Purged(old(policies), tenant)
    {
      var nplist := ListPolicies(Tenant, tenant);
      for i := 0 to |nplist|
        invariant policies == map k | k in old(policies) && k !in nplist[..i] :: old(policies)[k]
      {
        assert nplist[..i + 1] == nplist[..i] + [nplist[i]];
        policies := policies - {nplist[i]};
      }
      assert nplist[..|nplist|] == nplist;
    }

    /** One run of the controller for the named tenant policy. */
    method Reconcile(name: string)
      modifies this`policies, this`tenants
      ensures name !in old(tenants) ==> policies == old(policies) && tenants == old(tenants)
      ensures name in old(tenants) && !old(tenants)[name].deleting ==>
                && policies == Settled(namespaces, old(policies), old(tenants)[name].spec, cidrs)
                && tenants == old(tenants)[name := old(tenants)[name].(
                                finalizers := old(tenants)[name].finalizers + {FINALIZER})]
      ensures name in old(tenants) && old(tenants)[name].deleting ==>
                var l := old(tenants)[name].labels;
                if Tenant in l then
                  && tenants == old(tenants) - {name}
                  && policies == Purged(old(policies), l[Tenant])
                else policies == old(policies) && tenants == old(tenants)
    {
      if name !in tenants {
        return;
      }
      var netpol := tenants[name];
      if netpol.deleting {
        if Tenant !in netpol.labels {
          return;
        }
        DeleteLabelled(netpol.labels[Tenant]);
        // with its finalizers gone, the object itself goes
        tenants := tenants - {name};
        return;
      }
      var statusMap := HandleStatusMap(netpol.spec);
      ApplyAll(statusMap, netpol.spec);
      if FINALIZER !in netpol.finalizers {
        netpol := netpol.(finalizers := netpol.finalizers + {FINALIZER});
        tenants := tenants[name := netpol];
      } else {
        assert netpol.finalizers + {FINALIZER} == netpol.finalizers;
      }
    }

    /** The actions, in whatever order the map yields them. */
    method ApplyAll(statusMap: map<string, Action>, ghost spec: TenantSpec)
      requires StatusOf(statusMap, spec)
      modifies this`policies
      ensures policies == Settled(namespaces, old(policies), spec, cidrs)
    {
      ghost var was := policies;
      var rest := statusMap.Keys;
      while rest != {}
        invariant rest <= statusMap.Keys
        invariant Halfway(namespaces, was, spec, cidrs, rest, policies)
      {
        var ns :| ns in rest;
        AppliedIsAfter(was, spec, ns, namespaces[ns], cidrs, statusMap[ns]);
        ghost var before := policies;
        Apply(ns, statusMap[ns]);
        HalfwayStep(namespaces, was, spec, cidrs, rest, before, policies, ns);
        rest := rest - {ns};
      }
      SettledFrom(namespaces, was, spec, cidrs, policies);
    }
  }

  /** The namespaces in `rest` still have their old policies, all others are settled. */
  ghost predicate Halfway(namespaces: map<string, Labels>, was: map<PolicyKey, Policy>, spec: TenantSpec,
                          cidrs: seq<Cidr>, rest: set<string>, now: map<PolicyKey, Policy>)
  {
    forall k :: Lookup(now, k) ==
      if k.name == DEFAULT && k.namespace in rest then Lookup(was, k) else AfterAt(namespaces, was, spec, cidrs, k)
  }

  lemma HalfwayStep(namespaces: map<string, Labels>, was: map<PolicyKey, Policy>, spec: TenantSpec, cidrs: seq<Cidr>,
                    rest: set<string>, before: map<PolicyKey, Policy>, after: map<PolicyKey, Policy>, ns: string)
    requires Halfway(namespaces, was, spec, cidrs, rest, before) && ns in rest && ns in namespaces
    requires InScope(spec, namespaces[ns])
    requires Lookup(after, PolicyKey(ns, DEFAULT)) == After(was, spec, ns, namespaces[ns], cidrs)
    requires forall k :: k != PolicyKey(ns, DEFAULT) ==> Lookup(after, k) == Lookup(before, k)
    ensures Halfway(namespaces, was, spec, cidrs, rest - {ns}, after)
  {
  }
}
