/** The pass of a cluster: the calls that the reconciler makes, in the order in which it makes them,
    are the operations of Clusters.PassOps. */
module ClusterPasses {
  import opened Wrappers
  import opened Specs
  import opened Objects
  import opened ApiServers
  import opened Clusters
  import opened Flattening

  lemma EndpointsStep(c: Cluster, refs: seq<SecretRef>, hash: string, eps: seq<Endpoint>, i: nat)
    requires i < |eps|
    ensures EndpointOps(c, refs, hash, eps[i..]) ==
            [DeploymentOp(c, refs, hash, eps[i]), ServiceOp(c, eps[i])] + EndpointOps(c, refs, hash, eps[i + 1..])
  {
    assert eps[i..][1..] == eps[i + 1..];
  }

  lemma RunTwo(w: World, a: Op, b: Op, others: seq<Op>)
    ensures RunOps(w, [a, b] + others) ==
            if !RunOp(w, a).ok then RunOp(w, a)
            else if !RunOp(RunOp(w, a).world, b).ok then RunOp(RunOp(w, a).world, b)
            else RunOps(RunOp(RunOp(w, a).world, b).world, others)
  {
    assert ([a, b] + others)[1..] == [b] + others;
    assert ([b] + others)[1..] == others;
    assert RunOps(RunOp(w, a).world, [b] + others) ==
           if RunOp(RunOp(w, a).world, b).ok then RunOps(RunOp(RunOp(w, a).world, b).world, others)
           else RunOp(RunOp(w, a).world, b);
  }

  lemma RunCons(w: World, a: Op, others: seq<Op>)
    ensures RunOps(w, [a] + others) == if RunOp(w, a).ok then RunOps(RunOp(w, a).world, others) else RunOp(w, a)
  {
    assert ([a] + others)[1..] == others;
  }

  method BuildEndpoints(spec: ClusterSpec) returns (eps: seq<Endpoint>)
    ensures eps == Endpoints(spec)
  {
    var coaPort := 3799;
    if spec.coa.Some? && spec.coa.value.port > 0 {
      coaPort := spec.coa.value.port;
    }
    if spec.services.None? {
      var ports := [Port("auth", 1812), Port("acct", 1813)];
      if spec.coa.Some? && spec.coa.value.enabled {
        ports := ports + [Port("coa", coaPort)];
      }
      assert ports == UnifiedPorts(spec);
      return [Endpoint("", SUFFIX, ports, spec.replicas, spec.autoscaling, spec.service)];
    }
    eps := [];
    var services := spec.services.value;
    if services.auth.Some? {
      var auth := services.auth.value;
      eps := eps +
        [Endpoint("auth", AUTH_SUFFIX, [Port("auth", 1812)], auth.replicas, auth.autoscaling, Some(auth.service))];
    }
    if services.accounting.Some? {
      var acct := services.accounting.value;
      eps := eps +
        [Endpoint("acct", ACCT_SUFFIX, [Port("acct", 1813)], acct.replicas, acct.autoscaling, Some(acct.service))];
    }
    if services.coa.Some? {
      var coa := services.coa.value;
      eps := eps +
        [Endpoint("coa", COA_SUFFIX, [Port("coa", coaPort)], coa.replicas, coa.autoscaling, Some(coa.service))];
    }
  }

  method BuildPodSpec(c: Cluster, refs: seq<SecretRef>, ports: seq<Port>) returns (pod: PodSpec)
    ensures pod == PodOf(c, refs, ports)
  {
    var volumes := [ConfigMapVolume(CONFIG_VOLUME, c.name + CONFIG_SUFFIX), EmptyVolume(RENDERED_VOLUME)];
    for i := 0 to |refs|
      invariant volumes ==
                [ConfigMapVolume(CONFIG_VOLUME, c.name + CONFIG_SUFFIX), EmptyVolume(RENDERED_VOLUME)] +
                  SecretVolumes(refs[..i])
    {
      assert refs[..i + 1][..i] == refs[..i];
      volumes := volumes + [SecretVolume("secret-" + refs[i].name, refs[i].name)];
    }
    var configInit := MountSecrets([Mount(CONFIG_VOLUME, "/config-flat"), Mount(RENDERED_VOLUME, "/etc/freeradius")],
                                   refs);
    var renderClients := MountSecrets([Mount(RENDERED_VOLUME, "/etc/freeradius")], refs);
    var main := MountSecrets([Mount(RENDERED_VOLUME, "/etc/freeradius")], refs);
    assert refs[..|refs|] == refs;
    return PodSpec(c.spec.image, c.name + SUFFIX, ports, volumes, configInit, renderClients, main);
  }

  method MountSecrets(first: seq<Mount>, refs: seq<SecretRef>) returns (mounts: seq<Mount>)
    ensures mounts == first + SecretMounts(refs)
  {
    mounts := first;
    for i := 0 to |refs|
      invariant mounts == first + SecretMounts(refs[..i])
    {
      assert refs[..i + 1][..i] == refs[..i];
      mounts := mounts + [Mount("secret-" + refs[i].name, SecretDirectory(refs[i].name))];
    }
    assert refs[..|refs|] == refs;
  }

  class Reconciler {
    const api: ApiServer

    constructor (api: ApiServer)
      ensures this.api == api
    {
      this.api := api;
    }

    method ReconcileRBAC(c: Cluster) returns (ok: bool)
      modifies api
      ensures Run(api.Now(), ok) == old(RunOps(api.Now(), RBACOps(c)))
    {
      RunTwo(api.Now(), AccountOp(c), RoleOp(c), [RoleBindingOp(c)]);
      assert RBACOps(c) == [AccountOp(c), RoleOp(c)] + [RoleBindingOp(c)];
      ok := api.CreateOrUpdate(KeyOf(c, ServiceAccount, SUFFIX), c.name, AccountBody, None);
      if !ok {
        return;
      }
      ok := api.CreateOrUpdate(KeyOf(c, Role, READER_SUFFIX), c.name, RoleBody, None);
      if !ok {
        return;
      }
      RunOne(api.Now(), RoleBindingOp(c));
      ok := api.CreateOrUpdate(
        KeyOf(c, RoleBinding, READER_SUFFIX), c.name, RoleBindingBody(c.name + READER_SUFFIX, c.name + SUFFIX), None);
    }

    method ReconcileConfigMap(c: Cluster, files: map<string, string>)
        returns (ok: bool, ghost data: map<string, string>)
      modifies api
      ensures FlatData(files, data)
      ensures Run(api.Now(), ok) == old(RunOp(api.Now(), ConfigMapOp(c, data)))
    {
      var flat := FlattenFiles(files);
      data := flat;
      ok := api.CreateOrUpdate(KeyOf(c, ConfigMap, CONFIG_SUFFIX), c.name, ConfigMapBody(flat), None);
    }

    method ReconcileOneDeployment(c: Cluster, refs: seq<SecretRef>, hash: string, ep: Endpoint) returns (ok: bool)
      modifies api
      ensures Run(api.Now(), ok) == old(RunOp(api.Now(), DeploymentOp(c, refs, hash, ep)))
    {
      var labels := EndpointLabels(c.name, ep.role);
      var pod := BuildPodSpec(c, refs, ep.ports);
      var body := DeploymentBody(labels, labels, hash, pod, None);
      if ep.autoscaling.None? || !ep.autoscaling.value.enabled {
        var replicas := ep.replicas;
        if replicas < 1 {
          replicas := 1;
        }
        body := body.(replicas := Some(replicas));
      }
      ok := api.CreateOrUpdate(KeyOf(c, Deployment, ep.suffix), c.name, body, None);
    }

    method ReconcileOneService(c: Cluster, ep: Endpoint) returns (ok: bool)
      modifies api
      ensures Run(api.Now(), ok) == old(RunOp(api.Now(), ServiceOp(c, ep)))
    {
      var serviceType := "ClusterIP";
      if ep.service.Some? && ep.service.value.serviceType != "" {
        serviceType := ep.service.value.serviceType;
      }
      var body := ServiceBody(serviceType, EndpointLabels(c.name, ep.role), ep.ports, "", "");
      var annotations: Option<map<string, string>> := None;
      if ep.service.Some? {
        var config := ep.service.value;
        if config.loadBalancerIP != "" {
          body := body.(loadBalancerIP := config.loadBalancerIP);
        }
        if config.trafficPolicy != "" {
          body := body.(trafficPolicy := config.trafficPolicy);
        }
        if |config.annotations| > 0 {
          annotations := Some(config.annotations);
        }
      }
      ok := api.CreateOrUpdate(KeyOf(c, Service, ep.suffix), c.name, body, annotations);
    }

    method ReconcileDeploymentsAndServices(c: Cluster, refs: seq<SecretRef>, hash: string) returns (ok: bool)
      modifies api
      ensures Run(api.Now(), ok) == old(RunOps(api.Now(), WorkloadOps(c, refs, hash)))
    {
      var eps := BuildEndpoints(c.spec);
      ghost var w := api.Now();
      RunConcat(w, EndpointOps(c, refs, hash, eps), StaleOps(c, StaleSuffixes(c.spec)));
      for i := 0 to |eps|
        invariant RunOps(api.Now(), EndpointOps(c, refs, hash, eps[i..])) == RunOps(w, EndpointOps(c, refs, hash, eps))
      {
        EndpointsStep(c, refs, hash, eps, i);
        RunTwo(api.Now(), DeploymentOp(c, refs, hash, eps[i]), ServiceOp(c, eps[i]),
               EndpointOps(c, refs, hash, eps[i + 1..]));
        ok := ReconcileOneDeployment(c, refs, hash, eps[i]);
        if !ok {
          return;
        }
        ok := ReconcileOneService(c, eps[i]);
        if !ok {
          return;
        }
      }
      assert EndpointOps(c, refs, hash, eps[|eps|..]) == [];
      ok := CleanupStaleResources(c);
    }

    /** A read that fails is taken for an object that is not there. */
    method RemoveFound(key: Key) returns (ok: bool)
      modifies api
      ensures Run(api.Now(), ok) == old(RunOp(api.Now(), Remove(key)))
    {
      var found := api.Get(key);
      if !found.Object? {
        return true;
      }
      ok := api.Delete(key);
    }

    method CleanupStaleResources(c: Cluster) returns (ok: bool)
      modifies api
      ensures Run(api.Now(), ok) == old(RunOps(api.Now(), StaleOps(c, StaleSuffixes(c.spec))))
    {
      var suffixes := if c.spec.services.Some? then [SUFFIX] else [AUTH_SUFFIX, ACCT_SUFFIX, COA_SUFFIX];
      ghost var w := api.Now();
      for i := 0 to |suffixes|
        invariant RunOps(api.Now(), StaleOps(c, suffixes[i..])) == RunOps(w, StaleOps(c, suffixes))
      {
        assert suffixes[i..][1..] == suffixes[i + 1..];
        RunTwo(api.Now(), Remove(KeyOf(c, Deployment, suffixes[i])), Remove(KeyOf(c, Service, suffixes[i])),
               StaleOps(c, suffixes[i + 1..]));
        ok := RemoveFound(KeyOf(c, Deployment, suffixes[i]));
        if !ok {
          return;
        }
        ok := RemoveFound(KeyOf(c, Service, suffixes[i]));
        if !ok {
          return;
        }
      }
      return true;
    }

    method ReconcileOneHPA(c: Cluster, ep: Endpoint) returns (ok: bool)
      modifies api
      ensures Run(api.Now(), ok) == old(RunOp(api.Now(), AutoscalerOp(c, ep)))
    {
      if ep.autoscaling.None? || !ep.autoscaling.value.enabled {
        ok := RemoveFound(KeyOf(c, Autoscaler, ep.suffix));
        return;
      }
      var a := ep.autoscaling.value;
      ok := api.CreateOrUpdate(
        KeyOf(c, Autoscaler, ep.suffix), c.name,
        AutoscalerBody(c.name + ep.suffix, a.minReplicas, a.maxReplicas, a.cpu), None);
    }

    method ReconcileHPAs(c: Cluster) returns (ok: bool)
      modifies api
      ensures Run(api.Now(), ok) == old(RunOps(api.Now(), AutoscalerOps(c, Endpoints(c.spec))))
    {
      var eps := BuildEndpoints(c.spec);
      ghost var w := api.Now();
      for i := 0 to |eps|
        invariant RunOps(api.Now(), AutoscalerOps(c, eps[i..])) == RunOps(w, AutoscalerOps(c, eps))
      {
        assert eps[i..][1..] == eps[i + 1..];
        RunCons(api.Now(), AutoscalerOp(c, eps[i]), AutoscalerOps(c, eps[i + 1..]));
        ok := ReconcileOneHPA(c, eps[i]);
        if !ok {
          return;
        }
      }
      return true;
    }

    method ReconcilePDB(c: Cluster) returns (ok: bool)
      modifies api
      ensures Run(api.Now(), ok) == old(RunOp(api.Now(), BudgetOp(c)))
    {
      if c.spec.budget.None? && c.spec.replicas <= 1 {
        ok := RemoveFound(KeyOf(c, DisruptionBudget, SUFFIX));
        return;
      }
      var body := BudgetBody(PodLabels(c.name), None, None);
      if c.spec.budget.Some? {
        body := body.(minAvailable := c.spec.budget.value.minAvailable,
                      maxUnavailable := c.spec.budget.value.maxUnavailable);
      } else {
        body := body.(minAvailable := Some("1"));
      }
      ok := api.CreateOrUpdate(KeyOf(c, DisruptionBudget, SUFFIX), c.name, body, None);
    }

    /** The five steps of a pass, up to the first that fails. */
    method ReconcileResources(c: Cluster, files: map<string, string>, refs: seq<SecretRef>, hash: string)
      returns (ok: bool, ghost data: map<string, string>)
      modifies api
      ensures FlatData(files, data)
      ensures Run(api.Now(), ok) == old(RunOps(api.Now(), PassOps(c, data, refs, hash)))
    {
      ghost var w := api.Now();
      ok := ReconcileRBAC(c);
      if !ok {
        data := SomeFlatData(files);
        FailsEarly(w, c, data, refs, hash);
        return;
      }
      ghost var w1 := api.Now();
      ok, data := ReconcileConfigMap(c, files);
      StepsOf(w, c, data, refs, hash);
      if !ok {
        return;
      }
      ok := ReconcileDeploymentsAndServices(c, refs, hash);
      if !ok {
        return;
      }
      ok := ReconcileHPAs(c);
      if !ok {
        return;
      }
      ok := ReconcilePDB(c);
    }
  }

  lemma FailsEarly(w: World, c: Cluster, data: map<string, string>, refs: seq<SecretRef>, hash: string)
    requires !RunOps(w, RBACOps(c)).ok
    ensures RunOps(w, PassOps(c, data, refs, hash)) == RunOps(w, RBACOps(c))
  {
    RunConcat(w, RBACOps(c),
              [ConfigMapOp(c, data)] +
                (WorkloadOps(c, refs, hash) + (AutoscalerOps(c, Endpoints(c.spec)) + [BudgetOp(c)])));
  }

  /** A pass, step by step. */
  lemma StepsOf(w: World, c: Cluster, data: map<string, string>, refs: seq<SecretRef>, hash: string)
    ensures RunOps(w, PassOps(c, data, refs, hash)) ==
            var rbac := RunOps(w, RBACOps(c));
            if !rbac.ok then rbac else
            var config := RunOp(rbac.world, ConfigMapOp(c, data));
            if !config.ok then config else
            var workloads := RunOps(config.world, WorkloadOps(c, refs, hash));
            if !workloads.ok then workloads else
            var scalers := RunOps(workloads.world, AutoscalerOps(c, Endpoints(c.spec)));
            if !scalers.ok then scalers else RunOp(scalers.world, BudgetOp(c))
  {
    var budget := [BudgetOp(c)];
    var scalers := AutoscalerOps(c, Endpoints(c.spec)) + budget;
    var workloads := WorkloadOps(c, refs, hash) + scalers;
    var r1 := RunOps(w, RBACOps(c));
    RunConcat(w, RBACOps(c), [ConfigMapOp(c, data)] + workloads);
    RunCons(r1.world, ConfigMapOp(c, data), workloads);
    var r2 := RunOp(r1.world, ConfigMapOp(c, data));
    RunConcat(r2.world, WorkloadOps(c, refs, hash), scalers);
    var r3 := RunOps(r2.world, WorkloadOps(c, refs, hash));
    RunConcat(r3.world, AutoscalerOps(c, Endpoints(c.spec)), budget);
    RunOne(RunOps(r3.world, AutoscalerOps(c, Endpoints(c.spec))).world, BudgetOp(c));
  }
}
