/** What a pass that reports success leaves in the objects of a cluster, said from its spec field by
    field. */
module Workloads {
  import opened Wrappers
  import opened Specs
  import opened Objects
  import opened ApiServers
  import opened Convergence
  import opened Clusters
  import opened Ownership
  import opened Routing

  // ---------------------------------------------------------------- what the spec says

  predicate Scaling(a: Option<Autoscaling>) {
    a.Some? && a.value.enabled
  }

  function LabelsFor(name: string, role: string): Labels {
    if role == "" then
      map["app.kubernetes.io/name" := "freeradius", "app.kubernetes.io/instance" := name,
          "app.kubernetes.io/managed-by" := "freeradius-operator"]
    else
      map["app.kubernetes.io/name" := "freeradius", "app.kubernetes.io/instance" := name,
          "app.kubernetes.io/managed-by" := "freeradius-operator", "radius.operator.io/role" := role]
  }

  /** The pods run the image as the account, open the ports, and find the flattened configuration in
      front of the first init container and the rendered one in every container. */
  predicate PodSays(c: Cluster, ports: seq<Port>, pod: PodSpec) {
    && pod.image == c.spec.image && pod.account == c.name + "-freeradius" && pod.ports == ports
    && ConfigMapVolume("freeradius-config", c.name + "-freeradius-config") in pod.volumes
    && EmptyVolume("freeradius-config-rendered") in pod.volumes
    && Mount("freeradius-config", "/config-flat") in pod.configInit
    && (forall mounts | mounts in [pod.configInit, pod.renderClients, pod.main] ::
          Mount("freeradius-config-rendered", "/etc/freeradius") in mounts)
  }

  predicate DeploymentSays(c: Cluster, m: Store, hash: string, role: string, suffix: string, ports: seq<Port>,
                           replicas: int, scaling: Option<Autoscaling>) {
    var k := Key(Deployment, c.namespace, c.name + suffix);
    && k in m && m[k].owner == Some(c.name) && m[k].body.DeploymentBody?
    && m[k].body.configHash == hash && PodSays(c, ports, m[k].body.pod)
    && m[k].body.labels == m[k].body.selector == LabelsFor(c.name, role)
    && if Scaling(scaling) then m[k].body.replicas == None
       else m[k].body.replicas == Some(if replicas < 1 then 1 else replicas)
  }

  predicate ServiceSays(c: Cluster, was: Store, m: Store, role: string, suffix: string, ports: seq<Port>,
                        config: Option<ServiceConfig>) {
    var k := Key(Service, c.namespace, c.name + suffix);
    && k in m && m[k].owner == Some(c.name) && m[k].body.ServiceBody?
    && m[k].body.ports == ports && m[k].body.selector == LabelsFor(c.name, role)
    && m[k].body.serviceType ==
       (if config.Some? && config.value.serviceType != "" then config.value.serviceType else "ClusterIP")
    && m[k].body.loadBalancerIP == (if config.Some? then config.value.loadBalancerIP else "")
    && m[k].body.trafficPolicy == (if config.Some? then config.value.trafficPolicy else "")
    && (config.Some? && config.value.annotations != map[] ==> m[k].annotations == config.value.annotations)
    && (config.None? || config.value.annotations == map[] ==>
          m[k].annotations == if k in was then was[k].annotations else map[])
  }

  /** An autoscaler as configured, or none, unless the read that looked for one failed. */
  predicate AutoscalerSays(c: Cluster, m: Store, suffix: string, scaling: Option<Autoscaling>, missed: set<Key>) {
    var k := Key(Autoscaler, c.namespace, c.name + suffix);
    if Scaling(scaling) then
      && k in m && m[k].owner == Some(c.name) && m[k].body.AutoscalerBody?
      && m[k].body.target == c.name + suffix && m[k].body.minReplicas == scaling.value.minReplicas
      && m[k].body.maxReplicas == scaling.value.maxReplicas && m[k].body.cpu == scaling.value.cpu
    else k in m ==> k in missed
  }

  predicate BudgetSays(c: Cluster, m: Store, missed: set<Key>) {
    var k := Key(DisruptionBudget, c.namespace, c.name + "-freeradius");
    if c.spec.budget.Some? then
      && k in m && m[k].body.BudgetBody? && m[k].body.selector == LabelsFor(c.name, "")
      && m[k].body.minAvailable == c.spec.budget.value.minAvailable
      && m[k].body.maxUnavailable == c.spec.budget.value.maxUnavailable
    else if c.spec.replicas > 1 then
      && k in m && m[k].body.BudgetBody? && m[k].body.selector == LabelsFor(c.name, "")
      && m[k].body.minAvailable == Some("1") && m[k].body.maxUnavailable == None
    else k in m ==> k in missed
  }

  predicate RoleSays(c: Cluster, was: Store, m: Store, missed: set<Key>, hash: string, role: string, suffix: string,
                     ports: seq<Port>, replicas: int, scaling: Option<Autoscaling>, config: Option<ServiceConfig>) {
    && DeploymentSays(c, m, hash, role, suffix, ports, replicas, scaling)
    && ServiceSays(c, was, m, role, suffix, ports, config)
    && AutoscalerSays(c, m, suffix, scaling, missed)
  }

  function OpenedCoAPort(spec: ClusterSpec): Port {
    Port("coa", if spec.coa.Some? && spec.coa.value.port > 0 then spec.coa.value.port else 3799)
  }

  function OpenedPorts(spec: ClusterSpec): seq<Port> {
    if spec.coa.Some? && spec.coa.value.enabled then [Port("auth", 1812), Port("acct", 1813), OpenedCoAPort(spec)]
    else [Port("auth", 1812), Port("acct", 1813)]
  }

  /** A cluster without roles: one set of pods for everything, with CoA if it is enabled. */
  predicate UnifiedSays(c: Cluster, was: Store, m: Store, missed: set<Key>, hash: string) {
    RoleSays(c, was, m, missed, hash, "", "-freeradius", OpenedPorts(c.spec), c.spec.replicas, c.spec.autoscaling,
             c.spec.service)
  }

  /** A cluster with roles: for each that is configured, pods, ports and settings of its own. */
  predicate SplitSays(c: Cluster, was: Store, m: Store, missed: set<Key>, hash: string)
    requires c.spec.services.Some?
  {
    var roles := c.spec.services.value;
    && (roles.auth.Some? ==>
          RoleSays(c, was, m, missed, hash, "auth", "-freeradius-auth", [Port("auth", 1812)],
                   roles.auth.value.replicas, roles.auth.value.autoscaling, Some(roles.auth.value.service)))
    && (roles.accounting.Some? ==>
          RoleSays(c, was, m, missed, hash, "acct", "-freeradius-acct", [Port("acct", 1813)],
                   roles.accounting.value.replicas, roles.accounting.value.autoscaling,
                   Some(roles.accounting.value.service)))
    && (roles.coa.Some? ==>
          RoleSays(c, was, m, missed, hash, "coa", "-freeradius-coa", [OpenedCoAPort(c.spec)],
                   roles.coa.value.replicas, roles.coa.value.autoscaling, Some(roles.coa.value.service)))
  }

  // ---------------------------------------------------------------- what a pass leaves

  lemma LabelsAre(name: string, role: string)
    ensures EndpointLabels(name, role) == LabelsFor(name, role)
  {
  }

  lemma PodAsWanted(c: Cluster, refs: seq<SecretRef>, ports: seq<Port>)
    ensures PodSays(c, ports, PodOf(c, refs, ports))
  {
    var pod := PodOf(c, refs, ports);
    assert pod.volumes[0] == ConfigMapVolume("freeradius-config", c.name + "-freeradius-config");
    assert pod.volumes[1] == EmptyVolume("freeradius-config-rendered");
    assert pod.configInit[0] == Mount("freeradius-config", "/config-flat");
    var mount := Mount("freeradius-config-rendered", "/etc/freeradius");
    assert pod.configInit[1] == mount && pod.renderClients[0] == mount && pod.main[0] == mount;
  }

  lemma DeploymentAsWanted(c: Cluster, refs: seq<SecretRef>, hash: string, ep: Endpoint, m: Store)
    requires Slot(m, KeyOf(c, Deployment, ep.suffix)).Some?
    requires m[KeyOf(c, Deployment, ep.suffix)].owner == Some(c.name)
    requires m[KeyOf(c, Deployment, ep.suffix)].body == DeploymentOp(c, refs, hash, ep).body
    ensures DeploymentSays(c, m, hash, ep.role, ep.suffix, ep.ports, ep.replicas, ep.autoscaling)
  {
    LabelsAre(c.name, ep.role);
    PodAsWanted(c, refs, ep.ports);
    hide PodSays, PodOf, EndpointLabels, LabelsFor;
  }

  lemma ServiceAsWanted(c: Cluster, ep: Endpoint, was: Store, m: Store)
    requires Slot(m, KeyOf(c, Service, ep.suffix)) == Goal(ServiceOp(c, ep), Slot(was, KeyOf(c, Service, ep.suffix)))
    ensures ServiceSays(c, was, m, ep.role, ep.suffix, ep.ports, ep.service)
  {
    LabelsAre(c.name, ep.role);
    hide EndpointLabels, LabelsFor;
  }

  /** Every endpoint, after a success. */
  lemma EndpointAsWanted(w: World, c: Cluster, data: map<string, string>, refs: seq<SecretRef>, hash: string,
                         ep: Endpoint)
    requires RunOps(w, PassOps(c, data, refs, hash)).ok && ep in Endpoints(c.spec)
    ensures var ops := PassOps(c, data, refs, hash);
            RoleSays(c, w.objects, RunOps(w, ops).world.objects, Swallowed(w, ops), hash, ep.role, ep.suffix, ep.ports,
                     ep.replicas, ep.autoscaling, ep.service)
  {
    hide PassOps, RunOps, Endpoints, DeploymentSays, ServiceSays, PodOf, EndpointLabels;
    var ops := PassOps(c, data, refs, hash);
    var m := RunOps(w, ops).world.objects;
    PassKeys(c, data, refs, hash);
    EndpointOpsHold(c, refs, hash, Endpoints(c.spec), ep);
    InPass(c, data, refs, hash, DeploymentOp(c, refs, hash, ep));
    InPass(c, data, refs, hash, ServiceOp(c, ep));
    InPass(c, data, refs, hash, AutoscalerOp(c, ep));
    SuccessLeaves(w, ops, DeploymentOp(c, refs, hash, ep));
    SuccessLeaves(w, ops, ServiceOp(c, ep));
    SuccessLeaves(w, ops, AutoscalerOp(c, ep));
    DeploymentAsWanted(c, refs, hash, ep, m);
    ServiceAsWanted(c, ep, w.objects, m);
  }

  /** After a pass that reports success: everything that it was to apply for the pods and their
      Services is as the spec says, and carries the hash of the configuration. */
  lemma WorkloadsAsWanted(w: World, c: Cluster, data: map<string, string>, refs: seq<SecretRef>, hash: string)
    requires RunOps(w, PassOps(c, data, refs, hash)).ok
    ensures var ops := PassOps(c, data, refs, hash);
            var m, missed := RunOps(w, ops).world.objects, Swallowed(w, ops);
            && (if c.spec.services.None? then UnifiedSays(c, w.objects, m, missed, hash)
                else SplitSays(c, w.objects, m, missed, hash))
            && BudgetSays(c, m, missed)
            && Slot(m, Key(ConfigMap, c.namespace, c.name + "-freeradius-config")).Some?
            && m[Key(ConfigMap, c.namespace, c.name + "-freeradius-config")].body == ConfigMapBody(data)
  {
    hide PassOps, RunOps, RoleSays;
    var ops := PassOps(c, data, refs, hash);
    var eps := Endpoints(c.spec);
    forall ep | ep in eps
      ensures RoleSays(c, w.objects, RunOps(w, ops).world.objects, Swallowed(w, ops), hash, ep.role, ep.suffix,
                       ep.ports, ep.replicas, ep.autoscaling, ep.service)
    {
      EndpointAsWanted(w, c, data, refs, hash, ep);
    }
    RolesAreEndpoints(c.spec);
    BudgetAsWanted(w, c, data, refs, hash);
  }

  lemma RolesAreEndpoints(spec: ClusterSpec)
    ensures spec.services.None? ==>
              Endpoint("", "-freeradius", OpenedPorts(spec), spec.replicas, spec.autoscaling,
                       spec.service) in Endpoints(spec)
    ensures spec.services.Some? && spec.services.value.auth.Some? ==>
              var e := spec.services.value.auth.value;
              Endpoint("auth", "-freeradius-auth", [Port("auth", 1812)], e.replicas, e.autoscaling, Some(e.service))
              in Endpoints(spec)
    ensures spec.services.Some? && spec.services.value.accounting.Some? ==>
              var e := spec.services.value.accounting.value;
              Endpoint("acct", "-freeradius-acct", [Port("acct", 1813)], e.replicas, e.autoscaling, Some(e.service))
              in Endpoints(spec)
    ensures spec.services.Some? && spec.services.value.coa.Some? ==>
              var e := spec.services.value.coa.value;
              Endpoint("coa", "-freeradius-coa", [OpenedCoAPort(spec)], e.replicas, e.autoscaling, Some(e.service))
              in Endpoints(spec)
  {
    assert OpenedPorts(spec) == UnifiedPorts(spec);
    if spec.services.Some? {
      var roles := spec.services.value;
      var auth := RoleEndpoint(roles.auth, "auth", AUTH_SUFFIX, 1812);
      var acct := RoleEndpoint(roles.accounting, "acct", ACCT_SUFFIX, 1813);
      var coa := RoleEndpoint(roles.coa, "coa", COA_SUFFIX, CoAPort(spec));
      assert Endpoints(spec) == auth + acct + coa;
      assert roles.auth.Some? ==> auth[0] in auth;
      assert roles.accounting.Some? ==> acct[0] in acct;
      assert roles.coa.Some? ==> coa[0] in coa;
    }
  }

  lemma BudgetAsWanted(w: World, c: Cluster, data: map<string, string>, refs: seq<SecretRef>, hash: string)
    requires RunOps(w, PassOps(c, data, refs, hash)).ok
    ensures var ops := PassOps(c, data, refs, hash);
            var m := RunOps(w, ops).world.objects;
            && BudgetSays(c, m, Swallowed(w, ops))
            && Slot(m, Key(ConfigMap, c.namespace, c.name + "-freeradius-config")).Some?
            && m[Key(ConfigMap, c.namespace, c.name + "-freeradius-config")].body == ConfigMapBody(data)
  {
    hide PassOps, RunOps;
    var ops := PassOps(c, data, refs, hash);
    PassKeys(c, data, refs, hash);
    FixedOpsInPass(c, data, refs, hash);
    var fixed := [AccountOp(c), RoleOp(c), RoleBindingOp(c), ConfigMapOp(c, data), BudgetOp(c)];
    assert fixed[3] in fixed && fixed[4] in fixed;
    SuccessLeaves(w, ops, ConfigMapOp(c, data));
    SuccessLeaves(w, ops, BudgetOp(c));
    LabelsAre(c.name, "");
  }

  // ---------------------------------------------------------------- the other mode

  /** A Deployment and a Service with this suffix are gone, unless the read that looked for them failed. */
  predicate Gone(c: Cluster, m: Store, suffix: string, missed: set<Key>) {
    forall kind | kind in {Deployment, Service} && Key(kind, c.namespace, c.name + suffix) in m ::
      Key(kind, c.namespace, c.name + suffix) in missed
  }

  /** After a pass that reports success: nothing is left of the mode that the cluster is not in. */
  lemma OtherModeGone(w: World, c: Cluster, data: map<string, string>, refs: seq<SecretRef>, hash: string)
    requires RunOps(w, PassOps(c, data, refs, hash)).ok
    ensures var ops := PassOps(c, data, refs, hash);
            var m, missed := RunOps(w, ops).world.objects, Swallowed(w, ops);
            if c.spec.services.Some? then Gone(c, m, "-freeradius", missed)
            else
              Gone(c, m, "-freeradius-auth", missed) && Gone(c, m, "-freeradius-acct", missed) &&
              Gone(c, m, "-freeradius-coa", missed)
  {
    hide PassOps, RunOps;
    var stale := StaleSuffixes(c.spec);
    assert stale == if c.spec.services.Some? then [SUFFIX] else [AUTH_SUFFIX, ACCT_SUFFIX, COA_SUFFIX];
    forall s | s in stale
      ensures Gone(c, RunOps(w, PassOps(c, data, refs, hash)).world.objects, s,
                   Swallowed(w, PassOps(c, data, refs, hash)))
    {
      StaleLeft(w, c, data, refs, hash, s);
    }
    if c.spec.services.Some? {
      assert stale[0] in stale;
    } else {
      assert stale[0] in stale && stale[1] in stale && stale[2] in stale;
    }
  }

  // ---------------------------------------------------------------- rolling pods

  /** The Deployments that a cluster is to have. */
  function DeploymentSuffixes(spec: ClusterSpec): set<string> {
    if spec.services.None? then {"-freeradius"}
    else
      (if spec.services.value.auth.Some? then {"-freeradius-auth"} else {}) +
      (if spec.services.value.accounting.Some? then {"-freeradius-acct"} else {}) +
      (if spec.services.value.coa.Some? then {"-freeradius-coa"} else {})
  }

  /** Passes that succeed with different hashes leave different pod templates in every Deployment of the
      cluster, and with equal hashes the same hash. */
  lemma HashRolls(w: World, v: World, c: Cluster, data: map<string, string>, refs: seq<SecretRef>, hash: string,
                  later: map<string, string>, more: seq<SecretRef>, next: string, suffix: string)
    requires RunOps(w, PassOps(c, data, refs, hash)).ok && RunOps(v, PassOps(c, later, more, next)).ok
    requires suffix in DeploymentSuffixes(c.spec)
    ensures var k := Key(Deployment, c.namespace, c.name + suffix);
            var m, n := RunOps(w, PassOps(c, data, refs, hash)).world.objects,
                        RunOps(v, PassOps(c, later, more, next)).world.objects;
            && k in m && k in n && m[k].body.DeploymentBody? && n[k].body.DeploymentBody?
            && (m[k].body.configHash == n[k].body.configHash <==> hash == next)
            && (hash != next ==> m[k] != n[k])
  {
    hide PassOps, RunOps;
    HashAt(w, c, data, refs, hash, suffix);
    HashAt(v, c, later, more, next, suffix);
  }

  lemma HashAt(w: World, c: Cluster, data: map<string, string>, refs: seq<SecretRef>, hash: string, suffix: string)
    requires RunOps(w, PassOps(c, data, refs, hash)).ok && suffix in DeploymentSuffixes(c.spec)
    ensures var k := Key(Deployment, c.namespace, c.name + suffix);
            var m := RunOps(w, PassOps(c, data, refs, hash)).world.objects;
            k in m && m[k].body.DeploymentBody? && m[k].body.configHash == hash
  {
    hide PassOps, RunOps, PodSays, ServiceSays, AutoscalerSays, BudgetSays;
    WorkloadsAsWanted(w, c, data, refs, hash);
  }
}
