/** What reconciling tenant network policies achieves: convergence, the traffic it allows, and independence of the
    order in which tenants are reconciled. */
module NetworkPolicyProofs {
  import opened Wrappers
  import opened NetworkPolicy

  type Namespaces = map<string, Labels>
  type Policies = map<PolicyKey, Policy>

  // ---- Convergence ----

  lemma AfterTwice(namespaces: Namespaces, policies: Policies, spec: TenantSpec, cidrs: seq<Cidr>, ns: string)
    requires ns in namespaces && InScope(spec, namespaces[ns])
    ensures var l := namespaces[ns];
            var once := Settled(namespaces, policies, spec, cidrs);
            After(once, spec, ns, l, cidrs) == After(policies, spec, ns, l, cidrs)
  {
  }

  /** A second reconcile changes nothing, whatever policies the cluster started with. */
  lemma ReconcileIdempotent(namespaces: Namespaces, policies: Policies, spec: TenantSpec, cidrs: seq<Cidr>)
    ensures var once := Settled(namespaces, policies, spec, cidrs);
            Settled(namespaces, once, spec, cidrs) == once
  {
    var once := Settled(namespaces, policies, spec, cidrs);
    forall k
      ensures Lookup(once, k) == AfterAt(namespaces, once, spec, cidrs, k)
    {
      SettledLookup(namespaces, policies, spec, cidrs, k);
      if k.name == DEFAULT && k.namespace in namespaces && InScope(spec, namespaces[k.namespace]) {
        AfterTwice(namespaces, policies, spec, cidrs, k.namespace);
      }
    }
    SettledFrom(namespaces, once, spec, cidrs, once);
  }

  /** The default policies of these namespaces carry the namespace's labels, no other policy carries any of them. */
  ghost predicate Managed(namespaces: Namespaces, policies: Policies) {
    forall k, key :: k in policies && k.namespace in namespaces && key in {Tenant, Project, Environment} ==>
      if k.name == DEFAULT then
        key in namespaces[k.namespace] ==> Has(policies[k].labels, key, namespaces[k.namespace][key])
      else key !in policies[k].labels
  }

  lemma ManagedIsTracked(namespaces: Namespaces, policies: Policies, spec: TenantSpec, ns: string)
    requires Managed(namespaces, policies) && ns in namespaces && InScope(spec, namespaces[ns])
    ensures Tracked(policies, spec, ns, namespaces[ns]) <==> PolicyKey(ns, DEFAULT) in policies
  {
  }

  /** In a managed cluster one reconcile leaves a default policy in exactly the isolated namespaces in scope, with the
      contents the flags and labels call for; every other policy stays; and the cluster stays managed. */
  lemma Convergence(namespaces: Namespaces, policies: Policies, spec: TenantSpec, cidrs: seq<Cidr>)
    requires Managed(namespaces, policies)
    ensures var after := Settled(namespaces, policies, spec, cidrs);
            && Managed(namespaces, after)
            && forall k :: Lookup(after, k) ==
                 if k.name == DEFAULT && k.namespace in namespaces && InScope(spec, namespaces[k.namespace]) then
                   var l := namespaces[k.namespace];
                   if Isolated(spec, l) then Some(Desired(Levels(spec, l), l, cidrs)) else None
                 else Lookup(policies, k)
  {
    var after := Settled(namespaces, policies, spec, cidrs);
    forall k
      ensures Lookup(after, k) ==
              if k.name == DEFAULT && k.namespace in namespaces && InScope(spec, namespaces[k.namespace]) then
                var l := namespaces[k.namespace];
                if Isolated(spec, l) then Some(Desired(Levels(spec, l), l, cidrs)) else None
              else Lookup(policies, k)
    {
      SettledLookup(namespaces, policies, spec, cidrs, k);
      if k.name == DEFAULT && k.namespace in namespaces && InScope(spec, namespaces[k.namespace]) {
        assert k == PolicyKey(k.namespace, DEFAULT);
        ManagedIsTracked(namespaces, policies, spec, k.namespace);
      }
    }
    forall k, key | k in after && k.namespace in namespaces && key in {Tenant, Project, Environment}
      ensures if k.name == DEFAULT then
                key in namespaces[k.namespace] ==> Has(after[k].labels, key, namespaces[k.namespace][key])
              else key !in after[k].labels
    {
      assert Lookup(after, k) == Some(after[k]);
      if Lookup(policies, k) == Lookup(after, k) {
        assert k in policies;
      }
    }
  }

  /** Outside managed clusters, exactly when a namespace in scope ends up as it should: its policy and the labels of its
      policies must not disagree, unless the policy already is the right one. */
  lemma ConvergesExactlyWhen(namespaces: Namespaces, policies: Policies, spec: TenantSpec, cidrs: seq<Cidr>, ns: string)
    requires ns in namespaces && InScope(spec, namespaces[ns])
    ensures var l, d := namespaces[ns], PolicyKey(ns, DEFAULT);
            var should := if Isolated(spec, l) then Some(Desired(Levels(spec, l), l, cidrs)) else None;
            var tracked := Tracked(policies, spec, ns, l);
            Lookup(Settled(namespaces, policies, spec, cidrs), d) == should <==>
            Lookup(policies, d) == should || (if Isolated(spec, l) then tracked == (d in policies) else tracked)
  {
  }

  // ---- Traffic ----

  /** Where a connection comes from: a namespace's pod, or no namespace at all; either has an address. */
  datatype Source = Source(namespace: Option<string>, ip: nat)

  ghost predicate MatchesRequirement(r: Requirement, l: Labels) {
    match r
    case Exists(key) => key in l
    case In(key, values) => key in l && l[key] in values
  }

  ghost predicate MatchesPeer(p: Peer, namespaces: Namespaces, src: Source) {
    match p
    case IpBlock(cidr, except) => cidr.Contains(src.ip) && forall i :: 0 <= i < |except| ==> !except[i].Contains(src.ip)
    case NamespaceSelector(es) =>
      && src.namespace.Some? && src.namespace.value in namespaces
      && forall i :: 0 <= i < |es| ==> MatchesRequirement(es[i], namespaces[src.namespace.value])
  }

  /** Rules are alternatives, and so are the peers of a rule; a rule without peers admits everyone. */
  ghost predicate Admits(p: Policy, namespaces: Namespaces, src: Source) {
    exists i :: 0 <= i < |p.ingress| &&
      (p.ingress[i].from == [] || exists j :: 0 <= j < |p.ingress[i].from| &&
                                              MatchesPeer(p.ingress[i].from[j], namespaces, src))
  }

  /** Ingress to the pods of a namespace: free without policies, otherwise at least one policy must admit it. */
  ghost predicate Allowed(namespaces: Namespaces, policies: Policies, to: string, src: Source) {
    (forall k :: k in policies ==> k.namespace != to) ||
    exists k :: k in policies && k.namespace == to && Admits(policies[k], namespaces, src)
  }

  /** Two namespaces agree on every enabled level. */
  ghost predicate AgreeOn(levels: (bool, bool, bool), a: Labels, b: Labels) {
    && (levels.0 ==> Tenant in a && a[Tenant] == Get(b, Tenant))
    && (levels.1 ==> Project in a && a[Project] == Get(b, Project))
    && (levels.2 ==> Environment in a && a[Environment] == Get(b, Environment))
  }

  ghost predicate InPodNetwork(cidrs: seq<Cidr>, ip: nat) {
    exists i :: 0 <= i < |cidrs| && cidrs[i].Contains(ip)
  }

  lemma SelectorsAgree(levels: (bool, bool, bool), a: Labels, b: Labels)
    ensures var es := Selectors(levels, b);
            (forall i :: 0 <= i < |es| ==> MatchesRequirement(es[i], a)) <==> AgreeOn(levels, a, b)
  {
    var es := Selectors(levels, b);
    var t, p, e := In(Tenant, [Get(b, Tenant)]), In(Project, [Get(b, Project)]), In(Environment, [Get(b, Environment)]);
    assert levels.0 ==> es[0] == t;
    assert levels.1 ==> es[if levels.0 then 1 else 0] == p;
    assert levels.2 ==> es[|es| - 1] == e;
    assert forall i :: 0 <= i < |es| ==>
      (levels.0 && es[i] == t) || (levels.1 && es[i] == p) || (levels.2 && es[i] == e);
    assert MatchesRequirement(t, a) <==> Tenant in a && a[Tenant] == Get(b, Tenant);
    assert MatchesRequirement(p, a) <==> Project in a && a[Project] == Get(b, Project);
    assert MatchesRequirement(e, a) <==> Environment in a && a[Environment] == Get(b, Environment);
  }

  lemma DesiredAdmits(levels: (bool, bool, bool), l: Labels, cidrs: seq<Cidr>, namespaces: Namespaces, src: Source)
    requires src.ip <= EVERYWHERE.last
    ensures Admits(Desired(levels, l, cidrs), namespaces, src) <==>
            || !InPodNetwork(cidrs, src.ip)
            || (src.namespace.Some? && src.namespace.value in namespaces &&
                (Plugins in namespaces[src.namespace.value] || AgreeOn(levels, namespaces[src.namespace.value], l)))
  {
    var rules := DefaultIngress(cidrs, Selectors(levels, l));
    assert Desired(levels, l, cidrs).ingress == rules;
    assert MatchesPeer(rules[0].from[0], namespaces, src) <==> !InPodNetwork(cidrs, src.ip);
    if src.namespace.Some? && src.namespace.value in namespaces {
      var a := namespaces[src.namespace.value];
      SelectorsAgree(levels, a, l);
      assert MatchesRequirement(Exists(Plugins), a) <==> Plugins in a;
      assert rules[1].from[0].matchExpressions[0] == Exists(Plugins);
      assert MatchesPeer(rules[1].from[0], namespaces, src) <==> Plugins in a;
      assert MatchesPeer(rules[2].from[0], namespaces, src) <==> AgreeOn(levels, a, l);
    }
    assert forall i :: 0 <= i < 3 ==> |rules[i].from| == 1;
    assert Admits(Desired(levels, l, cidrs), namespaces, src) <==>
      exists i :: 0 <= i < 3 && MatchesPeer(rules[i].from[0], namespaces, src);
  }

  /** Traffic to an isolated namespace after a reconcile: what comes from outside the pod network gets in; from another
      namespace it gets in exactly when that one has the plugins label or agrees on the label of every enabled level
      (or when some policy of the target that is not the reconciler's admits it). */
  lemma Traffic(namespaces: Namespaces, policies: Policies, spec: TenantSpec, cidrs: seq<Cidr>, to: string, src: Source)
    requires Managed(namespaces, policies) && to in namespaces && Isolated(spec, namespaces[to])
    requires src.ip <= EVERYWHERE.last
    ensures Allowed(namespaces, Settled(namespaces, policies, spec, cidrs), to, src) <==>
            || !InPodNetwork(cidrs, src.ip)
            || (src.namespace.Some? && src.namespace.value in namespaces &&
                (|| Plugins in namespaces[src.namespace.value]
                 || AgreeOn(Levels(spec, namespaces[to]), namespaces[src.namespace.value], namespaces[to])))
            || (exists k :: k in policies && k.namespace == to && k.name != DEFAULT &&
                            Admits(policies[k], namespaces, src))
  {
    var l, after, d := namespaces[to], Settled(namespaces, policies, spec, cidrs), PolicyKey(to, DEFAULT);
    var p := Desired(Levels(spec, l), l, cidrs);
    Convergence(namespaces, policies, spec, cidrs);
    DesiredAdmits(Levels(spec, l), l, cidrs, namespaces, src);
    assert Lookup(after, d) == Some(p);
    forall k: PolicyKey | k.namespace == to && k.name != DEFAULT
      ensures k in after <==> k in policies
      ensures k in after ==> after[k] == policies[k]
    {
      assert Lookup(after, k) == Lookup(policies, k);
    }
    assert forall k: PolicyKey :: k.namespace == to && k.name == DEFAULT ==> k == d;
  }

  /** The spec isolates the namespace: its tenant, if that is to be isolated, or its project or environment. */
  predicate Protected(spec: TenantSpec, l: Labels) {
    || (spec.tenantIsolated && Tenant in l && l[Tenant] == spec.tenant)
    || (Project in l && l[Project] in spec.projects)
    || (Environment in l && l[Environment] in spec.environments)
  }

  /** On whatever level the namespace is isolated, the other one has the same label. */
  predicate Trusted(spec: TenantSpec, from: Labels, to: Labels) {
    && (spec.tenantIsolated && Tenant in to && to[Tenant] == spec.tenant ==>
          Tenant in from && from[Tenant] == to[Tenant])
    && (Project in to && to[Project] in spec.projects ==> Project in from && from[Project] == to[Project])
    && (Environment in to && to[Environment] in spec.environments ==>
          Environment in from && from[Environment] == to[Environment])
  }

  /** The same told from spec and labels alone; the policy that does it carries exactly the labels of its namespace that
      tell tenant, project and environment. */
  lemma TrafficByLabels(namespaces: Namespaces, policies: Policies, spec: TenantSpec, cidrs: seq<Cidr>, to: string,
                        src: Source)
    requires Managed(namespaces, policies) && to in namespaces && Protected(spec, namespaces[to])
    requires src.ip <= 0xFFFF_FFFF
    ensures var after := Settled(namespaces, policies, spec, cidrs);
            && (Allowed(namespaces, after, to, src) <==>
                || (forall i :: 0 <= i < |cidrs| ==> !cidrs[i].Contains(src.ip))
                || (src.namespace.Some? && src.namespace.value in namespaces &&
                    (|| Plugins in namespaces[src.namespace.value]
                     || Trusted(spec, namespaces[src.namespace.value], namespaces[to])))
                || (exists k :: k in policies && k.namespace == to && k.name != "default" &&
                                Admits(policies[k], namespaces, src)))
            && PolicyKey(to, "default") in after
            && var l, own := after[PolicyKey(to, "default")].labels, namespaces[to];
               && (forall key :: key in l <==> key in own && key in {Tenant, Project, Environment})
               && forall key :: key in l ==> l[key] == own[key]
  {
    Traffic(namespaces, policies, spec, cidrs, to, src);
    Convergence(namespaces, policies, spec, cidrs);
    var l, d := namespaces[to], PolicyKey(to, DEFAULT);
    assert Lookup(Settled(namespaces, policies, spec, cidrs), d) == Some(Desired(Levels(spec, l), l, cidrs));
  }

  /** A namespace in scope that is not isolated is as open as the policies of others leave it. */
  lemma OpenTraffic(namespaces: Namespaces, policies: Policies, spec: TenantSpec, cidrs: seq<Cidr>, to: string,
                    src: Source)
    requires Managed(namespaces, policies) && to in namespaces && Has(namespaces[to], Tenant, spec.tenant)
    requires !Protected(spec, namespaces[to])
    ensures Allowed(namespaces, Settled(namespaces, policies, spec, cidrs), to, src) <==>
            || (forall k :: k in policies && k.namespace == to ==> k.name == "default")
            || (exists k :: k in policies && k.namespace == to && k.name != "default" &&
                            Admits(policies[k], namespaces, src))
  {
    var after, d := Settled(namespaces, policies, spec, cidrs), PolicyKey(to, DEFAULT);
    Convergence(namespaces, policies, spec, cidrs);
    assert Lookup(after, d) == None;
    forall k: PolicyKey | k.namespace == to && k.name != DEFAULT
      ensures k in after <==> k in policies
      ensures k in after ==> after[k] == policies[k]
    {
      assert Lookup(after, k) == Lookup(policies, k);
    }
    assert forall k: PolicyKey :: k.namespace == to && k.name == DEFAULT ==> k == d;
  }

  ghost predicate NoLooser(stricter: (bool, bool, bool), levels: (bool, bool, bool)) {
    (levels.0 ==> stricter.0) && (levels.1 ==> stricter.1) && (levels.2 ==> stricter.2)
  }

  /** Enabling further levels never lets more in, and namespaces that share all three labels are never cut off. */
  lemma TrafficMonotone(namespaces: Namespaces, policies: Policies, spec: TenantSpec, stricter: TenantSpec,
                        cidrs: seq<Cidr>, to: string, src: Source)
    requires Managed(namespaces, policies) && to in namespaces && Isolated(spec, namespaces[to])
    requires NoLooser(Levels(stricter, namespaces[to]), Levels(spec, namespaces[to]))
    requires src.ip <= EVERYWHERE.last
    ensures Allowed(namespaces, Settled(namespaces, policies, stricter, cidrs), to, src) ==>
            Allowed(namespaces, Settled(namespaces, policies, spec, cidrs), to, src)
    ensures src.namespace.Some? && src.namespace.value in namespaces &&
            CommonLabels(namespaces[src.namespace.value]) == CommonLabels(namespaces[to]) ==>
            Allowed(namespaces, Settled(namespaces, policies, stricter, cidrs), to, src)
  {
    Traffic(namespaces, policies, spec, cidrs, to, src);
    Traffic(namespaces, policies, stricter, cidrs, to, src);
    if src.namespace.Some? && src.namespace.value in namespaces {
      var a, b := namespaces[src.namespace.value], namespaces[to];
      if CommonLabels(a) == CommonLabels(b) {
        assert forall key :: key in {Tenant, Project, Environment} && key in b ==>
          key in CommonLabels(b) && key in CommonLabels(a) && a[key] == CommonLabels(a)[key] == b[key];
      }
    }
  }

  // ---- Interleaving ----

  /** Every project and environment label value belongs to one tenant, and a tenant's policy names only its own. */
  ghost predicate Owned(namespaces: Namespaces, specs: set<TenantSpec>, projects: map<string, string>,
                        environments: map<string, string>)
  {
    && (forall s, t :: s in specs && t in specs && s.tenant == t.tenant ==> s == t)
    && (forall s, p :: s in specs && p in s.projects ==> p in projects && projects[p] == s.tenant)
    && (forall s, e :: s in specs && e in s.environments ==> e in environments && environments[e] == s.tenant)
    && (forall ns :: ns in namespaces ==> LabelsOwned(namespaces[ns], projects, environments))
  }

  ghost predicate LabelsOwned(l: Labels, projects: map<string, string>, environments: map<string, string>) {
    && (Project in l && l[Project] in projects ==> Has(l, Tenant, projects[l[Project]]))
    && (Environment in l && l[Environment] in environments ==> Has(l, Tenant, environments[l[Environment]]))
  }

  /** No namespace is in the scope of two tenants. */
  ghost predicate Apart(namespaces: Namespaces, specs: set<TenantSpec>) {
    forall s, t, ns ::
      (s in specs && t in specs && ns in namespaces && InScope(s, namespaces[ns]) && InScope(t, namespaces[ns])) ==>
      s == t
  }

  lemma ScopesDisjoint(namespaces: Namespaces, specs: set<TenantSpec>, projects: map<string, string>,
                       environments: map<string, string>)
    requires Owned(namespaces, specs, projects, environments)
    ensures Apart(namespaces, specs)
  {
  }

  /** Reconciles of tenants, one after the other. */
  ghost function Run(namespaces: Namespaces, policies: Policies, cidrs: seq<Cidr>, run: seq<TenantSpec>): Policies {
    if run == [] then policies
    else Settled(namespaces, Run(namespaces, policies, cidrs, run[..|run| - 1]), run[|run| - 1], cidrs)
  }

  /** What becomes of a policy when the tenant its namespace belongs to is reconciled, if it is. */
  ghost function Once(namespaces: Namespaces, policies: Policies, cidrs: seq<Cidr>, own: TenantSpec, done: bool,
                      k: PolicyKey): Option<Policy>
  {
    if done then AfterAt(namespaces, policies, own, cidrs, k) else Lookup(policies, k)
  }

  /** After any run, a namespace looks as if only its own tenant had been reconciled, once, provided that tenant occurs
      in the run. */
  lemma {:induction false} RunIsLocal(namespaces: Namespaces, policies: Policies, cidrs: seq<Cidr>,
                                      run: seq<TenantSpec>, own: TenantSpec, k: PolicyKey)
    requires k.namespace in namespaces ==> forall s :: s in run && InScope(s, namespaces[k.namespace]) ==> s == own
    ensures Lookup(Run(namespaces, policies, cidrs, run), k) ==
            Once(namespaces, policies, cidrs, own, own in run, k)
    decreases |run|
  {
    if run != [] {
      var less, last := run[..|run| - 1], run[|run| - 1];
      assert run == less + [last];
      var mid := Run(namespaces, policies, cidrs, less);
      SettledLookup(namespaces, mid, last, cidrs, k);
      forall q: PolicyKey | q.namespace == k.namespace
        ensures Lookup(mid, q) == Once(namespaces, policies, cidrs, own, own in less, q)
      {
        RunIsLocal(namespaces, policies, cidrs, less, own, q);
      }
      RunStep(namespaces, policies, cidrs, own in less, mid, own, last, k);
    }
  }

  lemma RunStep(namespaces: Namespaces, policies: Policies, cidrs: seq<Cidr>, done: bool, mid: Policies,
                own: TenantSpec, last: TenantSpec, k: PolicyKey)
    requires k.namespace in namespaces && InScope(last, namespaces[k.namespace]) ==> last == own
    requires forall q: PolicyKey :: q.namespace == k.namespace ==>
               Lookup(mid, q) == Once(namespaces, policies, cidrs, own, done, q)
    ensures AfterAt(namespaces, mid, last, cidrs, k) ==
            Once(namespaces, policies, cidrs, own, done || last == own, k)
  {
  }

  /** If the namespace is in the tenant's scope at all, its pass does not list a policy of it. */
  ghost predicate Unseen(policies: Policies, spec: TenantSpec, ns: string, l: Labels) {
    InScope(spec, l) ==> !Tracked(policies, spec, ns, l)
  }

  /** What may happen to the policies: a tenant is reconciled, or a tenant's policy object is deleted. */
  datatype Event = Reconciled(spec: TenantSpec) | Deleted(tenant: string)

  ghost function Happen(namespaces: Namespaces, policies: Policies, cidrs: seq<Cidr>, events: seq<Event>): Policies {
    if events == [] then policies
    else
      var before := Happen(namespaces, policies, cidrs, events[..|events| - 1]);
      match events[|events| - 1]
      case Reconciled(spec) => Settled(namespaces, before, spec, cidrs)
      case Deleted(tenant) => Purged(before, tenant)
  }

  /** The event leaves this default policy of the namespace alone: no reconcile sees a policy of the namespace, and no
      deletion is of the tenant on the label. */
  ghost predicate Harmless(e: Event, policies: Policies, ns: string, l: Labels, p: Policy) {
    match e
    case Reconciled(spec) => Unseen(policies, spec, ns, l)
    case Deleted(tenant) => !Has(p.labels, Tenant, tenant)
  }

  /** Of the namespace's policies nothing is left that was not there, and its default one is. */
  ghost predicate Shrunk(policies: Policies, mid: Policies, ns: string) {
    && Lookup(mid, PolicyKey(ns, DEFAULT)) == Lookup(policies, PolicyKey(ns, DEFAULT))
    && forall k: PolicyKey :: k.namespace == ns ==> Lookup(mid, k) == Lookup(policies, k) || Lookup(mid, k) == None
  }

  lemma UnseenStep(policies: Policies, mid: Policies, spec: TenantSpec, ns: string, l: Labels, cidrs: seq<Cidr>)
    requires Shrunk(policies, mid, ns) && PolicyKey(ns, DEFAULT) in policies && Unseen(policies, spec, ns, l)
    ensures InScope(spec, l) ==> After(mid, spec, ns, l, cidrs) == Lookup(policies, PolicyKey(ns, DEFAULT))
  {
    if InScope(spec, l) {
      var key := FirstKey(spec, l);
      forall k | k in mid && k.namespace == ns
        ensures !Has(mid[k].labels, key, Get(l, key))
      {
        assert Lookup(mid, k) == Lookup(policies, k);
      }
    }
  }

  lemma HarmlessStep(namespaces: Namespaces, policies: Policies, mid: Policies, cidrs: seq<Cidr>, e: Event, ns: string)
    requires ns in namespaces && PolicyKey(ns, DEFAULT) in policies && Shrunk(policies, mid, ns)
    requires Harmless(e, policies, ns, namespaces[ns], policies[PolicyKey(ns, DEFAULT)])
    ensures Shrunk(policies, match e case Reconciled(spec) => Settled(namespaces, mid, spec, cidrs)
                                     case Deleted(tenant) => Purged(mid, tenant), ns)
  {
    var d := PolicyKey(ns, DEFAULT);
    match e
    case Reconciled(spec) =>
      UnseenStep(policies, mid, spec, ns, namespaces[ns], cidrs);
      forall k: PolicyKey | k.namespace == ns
        ensures Lookup(Settled(namespaces, mid, spec, cidrs), k) ==
                if k == d then Lookup(policies, d) else Lookup(mid, k)
      {
        SettledLookup(namespaces, mid, spec, cidrs, k);
      }
    case Deleted(tenant) =>
      assert Lookup(mid, d) == Some(policies[d]);
      assert Lookup(Purged(mid, tenant), d) == Some(policies[d]);
  }

  /** A default policy that no tenant's pass lists stays as it is, whatever else happens: for an isolated namespace the
      create fails, for any other nothing is deleted. */
  lemma {:induction false} UnseenStays(namespaces: Namespaces, policies: Policies, cidrs: seq<Cidr>,
                                       events: seq<Event>, ns: string)
    requires ns in namespaces && PolicyKey(ns, DEFAULT) in policies
    requires forall e :: e in events ==> Harmless(e, policies, ns, namespaces[ns], policies[PolicyKey(ns, DEFAULT)])
    ensures Shrunk(policies, Happen(namespaces, policies, cidrs, events), ns)
    decreases |events|
  {
    if events != [] {
      var less, last := events[..|events| - 1], events[|events| - 1];
      assert last in events && forall e :: e in less ==> e in events;
      UnseenStays(namespaces, policies, cidrs, less, ns);
      HarmlessStep(namespaces, policies, Happen(namespaces, policies, cidrs, less), cidrs, last, ns);
    }
  }

  /** So relabelling breaks management. Take a namespace that was isolated under its former labels, and events in which
      every tenant that has it in scope meets it by a label it did not have before. The policy its former labels called
      for stays as long as no tenant policy object of its former tenant label is deleted, and goes with the first one
      that is. */
  lemma RelabelledNamespaceStays(before: Namespaces, now: Namespaces, policies: Policies, spec: TenantSpec,
                                 cidrs: seq<Cidr>, events: seq<Event>, ns: string)
    requires ns in before && ns in now && forall k :: k in policies ==> k.namespace != ns
    requires Isolated(spec, before[ns])
    requires forall e :: e in events && e.Reconciled? && InScope(e.spec, now[ns]) ==>
               !Has(before[ns], FirstKey(e.spec, now[ns]), Get(now[ns], FirstKey(e.spec, now[ns])))
    requires forall e :: e in events && e.Deleted? ==> !Has(before[ns], Tenant, e.tenant)
    ensures var stale, d := Settled(before, policies, spec, cidrs), PolicyKey(ns, DEFAULT);
            var after := Happen(now, stale, cidrs, events);
            && Lookup(after, d) == Some(Desired(Levels(spec, before[ns]), before[ns], cidrs))
            && forall tenant :: Lookup(Purged(after, tenant), d) == None <==> Has(before[ns], Tenant, tenant)
  {
    var stale, d := Settled(before, policies, spec, cidrs), PolicyKey(ns, DEFAULT);
    var p := Desired(Levels(spec, before[ns]), before[ns], cidrs);
    forall k: PolicyKey | k.namespace == ns
      ensures Lookup(stale, k) == if k == d then Some(p) else None
    {
      SettledLookup(before, policies, spec, cidrs, k);
    }
    assert Lookup(stale, d) == Some(p);
    forall e | e in events
      ensures Harmless(e, stale, ns, now[ns], stale[d])
    {
      if e.Reconciled? {
        NotListed(stale, e.spec, ns, before[ns], now[ns], p);
      }
    }
    UnseenStays(now, stale, cidrs, events, ns);
  }

  lemma NotListed(stale: Policies, spec: TenantSpec, ns: string, before: Labels, now: Labels, p: Policy)
    requires forall k: PolicyKey :: k.namespace == ns ==>
               Lookup(stale, k) == if k == PolicyKey(ns, DEFAULT) then Some(p) else None
    requires p.labels == CommonLabels(before)
    requires InScope(spec, now) ==> !Has(before, FirstKey(spec, now), Get(now, FirstKey(spec, now)))
    ensures Unseen(stale, spec, ns, now)
  {
    forall k | k in stale && k.namespace == ns && InScope(spec, now)
      ensures !Has(stale[k].labels, FirstKey(spec, now), Get(now, FirstKey(spec, now)))
    {
      assert Lookup(stale, k) == Some(stale[k]);
    }
  }

  /** Reconciling tenants in any two orders, each tenant at least once, ends in the same policies. */
  lemma OrderIrrelevant(namespaces: Namespaces, policies: Policies, specs: set<TenantSpec>, cidrs: seq<Cidr>,
                        run: seq<TenantSpec>, other: seq<TenantSpec>, projects: map<string, string>,
                        environments: map<string, string>)
    requires Owned(namespaces, specs, projects, environments)
    requires forall s :: s in run <==> s in specs
    requires forall s :: s in other <==> s in specs
    ensures Run(namespaces, policies, cidrs, run) == Run(namespaces, policies, cidrs, other)
  {
    ScopesDisjoint(namespaces, specs, projects, environments);
    var a, b := Run(namespaces, policies, cidrs, run), Run(namespaces, policies, cidrs, other);
    forall k
      ensures Lookup(a, k) == Lookup(b, k)
    {
      var own := if exists s :: s in specs && k.namespace in namespaces && InScope(s, namespaces[k.namespace])
                 then var s :| s in specs && k.namespace in namespaces && InScope(s, namespaces[k.namespace]); s
                 else TenantSpec("", false, [], []);
      RunIsLocal(namespaces, policies, cidrs, run, own, k);
      RunIsLocal(namespaces, policies, cidrs, other, own, k);
    }
    LookupExtensional(a, b);
  }
}
