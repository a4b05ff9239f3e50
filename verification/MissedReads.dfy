/** A pass can report success and yet leave both modes behind: the read that looks for a stale object
    may fail, and then the object is taken for missing. */
module MissedReads {
  import opened Wrappers
  import opened Specs
  import opened Objects
  import opened ApiServers
  import opened Clusters
  import opened ClusterPasses
  import opened Routing

  /** A cluster that was unified and is now split into an auth endpoint only. */
  function SplitCluster(): Cluster {
    var endpoint := EndpointSpec(1, None, ServiceConfig("", "", "", map[]));
    Cluster("ns", "c",
            ClusterSpec("image", 1, None, None, Some(Services(Some(endpoint), None, None)), None, None, None, []))
  }

  /** What is left of the unified mode: its Service. */
  function UnifiedStore(): Store {
    map[KeyOf(SplitCluster(), Service, SUFFIX) :=
          Stored(Some("c"), map[], ServiceBody("ClusterIP", EndpointLabels("c", ""), [Port("auth", 1812)], "", ""))]
  }

  lemma Creates(m: Store, op: Op, others: seq<Outcome>)
    requires op.Apply? && op.key !in m
    ensures RunOp(World(m, [Works, Works] + others), op) == Run(World(m[op.key := Goal(op, None).value], others), true)
  {
    var w := World(m, [Works, Works] + others);
    assert Rest(w) == World(m, [Works] + others);
    assert Rest(Rest(w)) == World(m, others);
  }

  lemma FindsNothing(m: Store, k: Key, others: seq<Outcome>)
    requires k !in m
    ensures RunOp(World(m, [Works] + others), Remove(k)) == Run(World(m, others), true)
    ensures RunOp(World(m, []), Remove(k)) == Run(World(m, []), true)
  {
    assert Rest(World(m, [Works] + others)) == World(m, others);
  }

  function Twice(n: nat, others: seq<Outcome>): seq<Outcome> {
    if n == 0 then others else [Works, Works] + Twice(n - 1, others)
  }

  const MISSED: seq<Outcome> := [Works, Fails]

  function Made(m: Store, op: Op): Store
    requires op.Apply?
  {
    m[op.key := Goal(op, None).value]
  }

  lemma RBACRuns(m: Store, c: Cluster, others: seq<Outcome>)
    requires AccountOp(c).key !in m && RoleOp(c).key !in m && RoleBindingOp(c).key !in m
    ensures RunOps(World(m, Twice(3, others)), RBACOps(c)) ==
            Run(World(Made(Made(Made(m, AccountOp(c)), RoleOp(c)), RoleBindingOp(c)), others), true)
  {
    var m1 := Made(m, AccountOp(c));
    var m2 := Made(m1, RoleOp(c));
    Creates(m, AccountOp(c), Twice(2, others));
    Creates(m1, RoleOp(c), Twice(1, others));
    Creates(m2, RoleBindingOp(c), others);
    assert Twice(1, others) == [Works, Works] + others;
    RunTwo(World(m, Twice(3, others)), AccountOp(c), RoleOp(c), [RoleBindingOp(c)]);
    assert RBACOps(c) == [AccountOp(c), RoleOp(c)] + [RoleBindingOp(c)];
    RunOne(World(m2, Twice(1, others)), RoleBindingOp(c));
  }

  lemma OpsOfSplit(refs: seq<SecretRef>, hash: string)
    ensures var c := SplitCluster();
            var ep := Endpoints(c.spec)[0];
            && Endpoints(c.spec) == [ep] && ep.suffix == AUTH_SUFFIX && !Scaled(ep)
            && WorkloadOps(c, refs, hash) ==
               [DeploymentOp(c, refs, hash, ep), ServiceOp(c, ep)] +
               [Remove(KeyOf(c, Deployment, SUFFIX)), Remove(KeyOf(c, Service, SUFFIX))]
            && AutoscalerOps(c, [ep]) == [Remove(KeyOf(c, Autoscaler, AUTH_SUFFIX))]
            && BudgetOp(c) == Remove(KeyOf(c, DisruptionBudget, SUFFIX))
  {
    var c := SplitCluster();
    var eps := Endpoints(c.spec);
    assert eps == [eps[0]] && eps[1..] == [];
    assert EndpointOps(c, refs, hash, []) == [] && AutoscalerOps(c, []) == [];
    assert [SUFFIX][1..] == [] && StaleOps(c, []) == [];
  }

  lemma NamesDiffer(c: Cluster)
    ensures c.name + SUFFIX != c.name + AUTH_SUFFIX
  {
    assert |SUFFIX| == 11 && |AUTH_SUFFIX| == 16;
  }

  lemma WorkloadsRun(m: Store, refs: seq<SecretRef>, hash: string)
    requires var c := SplitCluster();
             && KeyOf(c, Deployment, AUTH_SUFFIX) !in m && KeyOf(c, Service, AUTH_SUFFIX) !in m
             && KeyOf(c, Deployment, SUFFIX) !in m
    ensures var c := SplitCluster();
            var ep := Endpoints(c.spec)[0];
            RunOps(World(m, Twice(2, MISSED)), WorkloadOps(c, refs, hash)) ==
            Run(World(Made(Made(m, DeploymentOp(c, refs, hash, ep)), ServiceOp(c, ep)), []), true)
  {
    var c := SplitCluster();
    OpsOfSplit(refs, hash);
    NamesDiffer(c);
    var ep := Endpoints(c.spec)[0];
    var m1 := Made(m, DeploymentOp(c, refs, hash, ep));
    var m2 := Made(m1, ServiceOp(c, ep));
    var gone := [Remove(KeyOf(c, Deployment, SUFFIX)), Remove(KeyOf(c, Service, SUFFIX))];
    Creates(m, DeploymentOp(c, refs, hash, ep), Twice(1, MISSED));
    Creates(m1, ServiceOp(c, ep), MISSED);
    assert Twice(1, MISSED) == [Works, Works] + MISSED;
    RunTwo(World(m, Twice(2, MISSED)), DeploymentOp(c, refs, hash, ep), ServiceOp(c, ep), gone);
    FindsNothing(m2, KeyOf(c, Deployment, SUFFIX), [Fails]);
    assert MISSED == [Works] + [Fails];
    RunTwo(World(m2, MISSED), gone[0], gone[1], []);
    assert gone == [gone[0], gone[1]] + [];
    assert Rest(World(m2, [Fails])) == World(m2, []);
    assert RunOps(World(m2, []), []) == Run(World(m2, []), true);
  }

  /** The store once the role binding and the configuration are there. */
  function Configured(data: map<string, string>): Store {
    var c := SplitCluster();
    Made(Made(Made(Made(UnifiedStore(), AccountOp(c)), RoleOp(c)), RoleBindingOp(c)), ConfigMapOp(c, data))
  }

  lemma ConfiguredKeys(data: map<string, string>)
    ensures var c, m := SplitCluster(), Configured(data);
            && KeyOf(c, Service, SUFFIX) in m
            && forall k | k in m ::
               k.kind in {ServiceAccount, Role, RoleBinding, ConfigMap} || k == KeyOf(c, Service, SUFFIX)
  {
  }

  lemma TwiceSplits()
    ensures Twice(6, MISSED) == Twice(3, Twice(3, MISSED)) && Twice(3, MISSED) == [Works, Works] + Twice(2, MISSED)
  {
    assert Twice(4, MISSED) == Twice(1, Twice(3, MISSED));
    assert Twice(5, MISSED) == Twice(2, Twice(3, MISSED));
  }

  lemma ConfigurationRuns(data: map<string, string>)
    ensures var c := SplitCluster();
            var rbac := RunOps(World(UnifiedStore(), Twice(6, MISSED)), RBACOps(c));
            && rbac.ok
            && RunOp(rbac.world, ConfigMapOp(c, data)) == Run(World(Configured(data), Twice(2, MISSED)), true)
  {
    var c, m := SplitCluster(), UnifiedStore();
    TwiceSplits();
    RBACRuns(m, c, Twice(3, MISSED));
    Creates(Made(Made(Made(m, AccountOp(c)), RoleOp(c)), RoleBindingOp(c)), ConfigMapOp(c, data), Twice(2, MISSED));
  }

  lemma CleanupRuns(m: Store)
    requires KeyOf(SplitCluster(), Autoscaler, AUTH_SUFFIX) !in m
    requires KeyOf(SplitCluster(), DisruptionBudget, SUFFIX) !in m
    ensures var c := SplitCluster();
            var scalers := RunOps(World(m, []), AutoscalerOps(c, Endpoints(c.spec)));
            scalers == Run(World(m, []), true) && RunOp(scalers.world, BudgetOp(c)) == Run(World(m, []), true)
  {
    var c := SplitCluster();
    OpsOfSplit([], "");
    FindsNothing(m, KeyOf(c, Autoscaler, AUTH_SUFFIX), []);
    RunOne(World(m, []), Remove(KeyOf(c, Autoscaler, AUTH_SUFFIX)));
    FindsNothing(m, KeyOf(c, DisruptionBudget, SUFFIX), []);
  }

  lemma RunIs(data: map<string, string>, refs: seq<SecretRef>, hash: string)
    ensures var c, m := SplitCluster(), Configured(data);
            var ep := Endpoints(c.spec)[0];
            RunOps(World(UnifiedStore(), Twice(6, MISSED)), PassOps(c, data, refs, hash)) ==
            Run(World(Made(Made(m, DeploymentOp(c, refs, hash, ep)), ServiceOp(c, ep)), []), true)
  {
    hide RunOps, RunOp, Twice, PassOps, WorkloadOps, RBACOps;
    var c, m := SplitCluster(), Configured(data);
    var ep := Endpoints(c.spec)[0];
    NamesDiffer(c);
    ConfiguredKeys(data);
    ConfigurationRuns(data);
    WorkloadsRun(m, refs, hash);
    CleanupRuns(Made(Made(m, DeploymentOp(c, refs, hash, ep)), ServiceOp(c, ep)));
    StepsOf(World(UnifiedStore(), Twice(6, MISSED)), c, data, refs, hash);
  }

  /** The concrete failure: every call works but the read of the old Service. The pass reports
      success, the new Service is there, and so is the old one, which selects the same pods. */
  lemma MissedReadKeepsBothModes(data: map<string, string>, refs: seq<SecretRef>, hash: string)
    ensures var c := SplitCluster();
            var run := RunOps(World(UnifiedStore(), Twice(6, MISSED)), PassOps(c, data, refs, hash));
            && run.ok
            && KeyOf(c, Service, AUTH_SUFFIX) in run.world.objects && KeyOf(c, Service, SUFFIX) in run.world.objects
            && !OneMode(c, run.world.objects)
  {
    ConfiguredKeys(data);
    OpsOfSplit(refs, hash);
    RunIs(data, refs, hash);
    assert SUFFIX in StaleSuffixes(SplitCluster().spec);
  }
}
