/** What holds after a pass that reports success: modes, routing and replicas. */
module Routing {
  import opened Wrappers
  import opened Specs
  import opened Objects
  import opened ApiServers
  import opened Convergence
  import opened Clusters
  import opened Ownership
  import opened Interleaving
  import opened InterleavedPasses

  // ---------------------------------------------------------------- the operations, one by one

  lemma {:induction false} EndpointOpsHold(c: Cluster, refs: seq<SecretRef>, hash: string, eps: seq<Endpoint>,
      ep: Endpoint)
    requires ep in eps
    ensures DeploymentOp(c, refs, hash, ep) in EndpointOps(c, refs, hash, eps)
    ensures ServiceOp(c, ep) in EndpointOps(c, refs, hash, eps)
    ensures AutoscalerOp(c, ep) in AutoscalerOps(c, eps)
    decreases |eps|
  {
    if ep != eps[0] {
      EndpointOpsHold(c, refs, hash, eps[1..], ep);
    }
  }

  lemma {:induction false} StaleOpsHold(c: Cluster, suffixes: seq<string>, s: string)
    requires s in suffixes
    ensures Remove(KeyOf(c, Deployment, s)) in StaleOps(c, suffixes) &&
            Remove(KeyOf(c, Service, s)) in StaleOps(c, suffixes)
    decreases |suffixes|
  {
    if s != suffixes[0] {
      StaleOpsHold(c, suffixes[1..], s);
    }
  }

  lemma InPass(c: Cluster, data: map<string, string>, refs: seq<SecretRef>, hash: string, op: Op)
    requires op in WorkloadOps(c, refs, hash) || op in AutoscalerOps(c, Endpoints(c.spec))
    ensures op in PassOps(c, data, refs, hash)
  {
    var rest := WorkloadOps(c, refs, hash) + (AutoscalerOps(c, Endpoints(c.spec)) + [BudgetOp(c)]);
    assert op in rest;
    assert op in [ConfigMapOp(c, data)] + rest;
  }

  /** The role of an endpoint is what its suffix says. */
  lemma EndpointRole(spec: ClusterSpec, ep: Endpoint)
    requires ep in Endpoints(spec)
    ensures ep.suffix in ROLE_SUFFIXES && ep.role == RoleOf(ep.suffix)
  {
    assert Last(SUFFIX) == 's' && Last(AUTH_SUFFIX) == 'h' && Last(ACCT_SUFFIX) == 't' && Last(COA_SUFFIX) == 'a';
  }

  // ---------------------------------------------------------------- passes are what the machine runs

  lemma {:induction false} EndpointOpsRouted(c: Cluster, refs: seq<SecretRef>, hash: string, eps: seq<Endpoint>, op: Op)
    requires forall ep | ep in eps :: ep.suffix in ROLE_SUFFIXES && ep.role == RoleOf(ep.suffix)
    requires op in EndpointOps(c, refs, hash, eps)
    ensures op.Apply? && op.owner == c.name && Routed(c.name, op.key, op.body)
    decreases |eps|
  {
    assert eps[0] in eps;
    assert (c.name + eps[0].suffix)[|c.name|..] == eps[0].suffix;
    if op != DeploymentOp(c, refs, hash, eps[0]) && op != ServiceOp(c, eps[0]) {
      EndpointOpsRouted(c, refs, hash, eps[1..], op);
    }
  }

  lemma {:induction false} OtherOpsOwned(c: Cluster, eps: seq<Endpoint>, suffixes: seq<string>)
    ensures forall op | op in AutoscalerOps(c, eps) :: op.key.kind == Autoscaler && (op.Apply? ==> op.owner == c.name)
    ensures forall op | op in StaleOps(c, suffixes) :: op.Remove?
    decreases |eps| + |suffixes|
  {
    if eps != [] {
      OtherOpsOwned(c, eps[1..], suffixes);
    } else if suffixes != [] {
      OtherOpsOwned(c, eps, suffixes[1..]);
    }
  }

  function IdOf(c: Cluster): ClusterId {
    ClusterId(c.namespace, c.name)
  }

  predicate OwnApply(c: Cluster, op: Op) {
    op.Apply? ==> op.owner == c.name && Routed(c.name, op.key, op.body)
  }

  lemma WhereFrom(c: Cluster, data: map<string, string>, refs: seq<SecretRef>, hash: string, op: Op)
    requires op in PassOps(c, data, refs, hash)
    ensures || op in [AccountOp(c), RoleOp(c), RoleBindingOp(c), ConfigMapOp(c, data), BudgetOp(c)]
            || op in EndpointOps(c, refs, hash, Endpoints(c.spec))
            || op in StaleOps(c, StaleSuffixes(c.spec))
            || op in AutoscalerOps(c, Endpoints(c.spec))
  {
    var fixed := [AccountOp(c), RoleOp(c), RoleBindingOp(c), ConfigMapOp(c, data), BudgetOp(c)];
    assert fixed[0] in fixed && fixed[1] in fixed && fixed[2] in fixed && fixed[3] in fixed && fixed[4] in fixed;
    var end := AutoscalerOps(c, Endpoints(c.spec)) + [BudgetOp(c)];
    var rest := [ConfigMapOp(c, data)] + (WorkloadOps(c, refs, hash) + end);
    assert op in RBACOps(c) || op in rest;
    assert op in rest ==> op == ConfigMapOp(c, data) || op in WorkloadOps(c, refs, hash) || op in end;
  }

  lemma EndpointOpOwned(c: Cluster, refs: seq<SecretRef>, hash: string, op: Op)
    requires op in EndpointOps(c, refs, hash, Endpoints(c.spec))
    ensures OwnApply(c, op)
  {
    forall ep | ep in Endpoints(c.spec)
      ensures ep.suffix in ROLE_SUFFIXES && ep.role == RoleOf(ep.suffix)
    {
      EndpointRole(c.spec, ep);
    }
    EndpointOpsRouted(c, refs, hash, Endpoints(c.spec), op);
  }

  lemma FixedOpsOwned(c: Cluster, data: map<string, string>, op: Op)
    requires op in [AccountOp(c), RoleOp(c), RoleBindingOp(c), ConfigMapOp(c, data), BudgetOp(c)]
    ensures OwnApply(c, op)
  {
  }

  /** Every pass of the reconciler is one that the interleaving machine lets its cluster start. */
  lemma PassesAreOwn(c: Cluster, data: map<string, string>, refs: seq<SecretRef>, hash: string)
    ensures OwnOps(IdOf(c), PassOps(c, data, refs, hash)) && Distinct(PassOps(c, data, refs, hash))
  {
    var ops := PassOps(c, data, refs, hash);
    PassKeys(c, data, refs, hash);
    OtherOpsOwned(c, Endpoints(c.spec), StaleSuffixes(c.spec));
    forall op | op in ops
      ensures Own(IdOf(c), op.key) && OwnApply(c, op)
    {
      assert op.key in KeysOf(ops);
      WhereFrom(c, data, refs, hash, op);
      if op in EndpointOps(c, refs, hash, Endpoints(c.spec)) {
        EndpointOpOwned(c, refs, hash, op);
      } else if op in [AccountOp(c), RoleOp(c), RoleBindingOp(c), ConfigMapOp(c, data), BudgetOp(c)] {
        FixedOpsOwned(c, data, op);
      }
    }
  }

  // ---------------------------------------------------------------- modes

  /** No Deployment and no Service of the other mode. */
  predicate OneMode(c: Cluster, m: Store) {
    forall s | s in StaleSuffixes(c.spec) :: KeyOf(c, Deployment, s) !in m && KeyOf(c, Service, s) !in m
  }

  /** A Deployment or Service of the other mode was there, and the read that looked for it failed. */
  predicate StaleMissed(c: Cluster, w: World, ops: seq<Op>) {
    exists s :: s in StaleSuffixes(c.spec) &&
      ((KeyOf(c, Deployment, s) in w.objects && KeyOf(c, Deployment, s) in Swallowed(w, ops)) ||
       (KeyOf(c, Service, s) in w.objects && KeyOf(c, Service, s) in Swallowed(w, ops)))
  }

  lemma StaleLeft(w: World, c: Cluster, data: map<string, string>, refs: seq<SecretRef>, hash: string, s: string)
    requires RunOps(w, PassOps(c, data, refs, hash)).ok && s in StaleSuffixes(c.spec)
    ensures var ops := PassOps(c, data, refs, hash);
            var after := RunOps(w, ops).world.objects;
            && (KeyOf(c, Deployment, s) in after <==>
                KeyOf(c, Deployment, s) in w.objects && KeyOf(c, Deployment, s) in Swallowed(w, ops))
            && (KeyOf(c, Service, s) in after <==>
                KeyOf(c, Service, s) in w.objects && KeyOf(c, Service, s) in Swallowed(w, ops))
  {
    PassKeys(c, data, refs, hash);
    StaleOpsHold(c, StaleSuffixes(c.spec), s);
    InPass(c, data, refs, hash, Remove(KeyOf(c, Deployment, s)));
    InPass(c, data, refs, hash, Remove(KeyOf(c, Service, s)));
    SuccessLeaves(w, PassOps(c, data, refs, hash), Remove(KeyOf(c, Deployment, s)));
    SuccessLeaves(w, PassOps(c, data, refs, hash), Remove(KeyOf(c, Service, s)));
  }

  /** After a pass that reports success, whatever came before, unified and split objects of the
      cluster do not coexist, exactly unless a failed read hid a stale one. */
  lemma OneModeExactly(w: World, c: Cluster, data: map<string, string>, refs: seq<SecretRef>, hash: string)
    requires RunOps(w, PassOps(c, data, refs, hash)).ok
    ensures var ops := PassOps(c, data, refs, hash);
            OneMode(c, RunOps(w, ops).world.objects) <==> !StaleMissed(c, w, ops)
  {
    forall s | s in StaleSuffixes(c.spec)
      ensures var ops := PassOps(c, data, refs, hash);
              var after := RunOps(w, ops).world.objects;
              && (KeyOf(c, Deployment, s) in after <==>
                  KeyOf(c, Deployment, s) in w.objects && KeyOf(c, Deployment, s) in Swallowed(w, ops))
              && (KeyOf(c, Service, s) in after <==>
                  KeyOf(c, Service, s) in w.objects && KeyOf(c, Service, s) in Swallowed(w, ops))
    {
      StaleLeft(w, c, data, refs, hash, s);
    }
  }

  // ---------------------------------------------------------------- routing

  /** A label selector matches a label set. */
  predicate Selects(selector: Labels, labels: Labels) {
    forall k | k in selector :: k in labels && labels[k] == selector[k]
  }

  lemma LabelsDiffer()
    ensures NAME_LABEL != INSTANCE_LABEL && NAME_LABEL != MANAGER_LABEL && INSTANCE_LABEL != MANAGER_LABEL
    ensures ROLE_LABEL !in {NAME_LABEL, INSTANCE_LABEL, MANAGER_LABEL}
  {
    assert |NAME_LABEL| == 22 && |INSTANCE_LABEL| == 26 && |MANAGER_LABEL| == 28 && |ROLE_LABEL| == 23;
  }

  lemma SelectsExactly(a: string, role: string, b: string, otherRole: string)
    ensures Selects(EndpointLabels(a, role), EndpointLabels(b, otherRole)) <==>
            a == b && (role == "" || role == otherRole)
  {
    LabelsDiffer();
    var selector, labels := EndpointLabels(a, role), EndpointLabels(b, otherRole);
    assert selector[INSTANCE_LABEL] == a && labels[INSTANCE_LABEL] == b;
    assert role != "" ==> ROLE_LABEL in selector && selector[ROLE_LABEL] == role;
    assert ROLE_LABEL in labels <==> otherRole != "";
  }

  /** In a tidy store, pods of a role are selected by the Service of that role and, if there is one,
      by the Service of the unified mode, and by no other Service of any cluster. */
  lemma SelectedBy(m: Store, c: Cluster, s: string, k: Key, d: ClusterId)
    requires Tidy(m) && s in ROLE_SUFFIXES
    requires k in m && k.kind == Service && Own(d, k) && d.namespace == c.namespace
    ensures m[k].body.ServiceBody?
    ensures Selects(m[k].body.selector, EndpointLabels(c.name, RoleOf(s))) <==>
            k == KeyOf(c, Service, s) || k == KeyOf(c, Service, SUFFIX)
  {
    assert Fits(d, k, m[k]);
    var t := k.name[|d.name|..];
    RolesDiffer(s, t);
    SelectsExactly(d.name, RoleOf(t), c.name, RoleOf(s));
    var u :| u in SUFFIXES && k.name == d.name + u;
    assert u == t;
    RolesAreSuffixes(s);
    if k == KeyOf(c, Service, s) {
      NameDetermines(d.name, t, c.name, s);
    }
    if k == KeyOf(c, Service, SUFFIX) {
      RolesAreSuffixes(SUFFIX);
      NameDetermines(d.name, t, c.name, SUFFIX);
    }
  }

  lemma RolesAreSuffixes(s: string)
    requires s in ROLE_SUFFIXES
    ensures s in SUFFIXES
  {
  }

  lemma RolesDiffer(s: string, t: string)
    requires s in ROLE_SUFFIXES && t in ROLE_SUFFIXES
    ensures RoleOf(t) == "" <==> t == SUFFIX
    ensures RoleOf(s) == RoleOf(t) <==> s == t
  {
    assert Last(SUFFIX) == 's' && Last(AUTH_SUFFIX) == 'h' && Last(ACCT_SUFFIX) == 't' && Last(COA_SUFFIX) == 'a';
    assert "auth" != "acct" && "auth" != "coa" && "acct" != "coa";
  }

  /** The Services of clusters in the namespace that select these pods. */
  ghost predicate SelectedOnlyBy(m: Store, namespace: string, labels: Labels, own: Key) {
    forall k, d: ClusterId | k in m && k.kind == Service && Own(d, k) && d.namespace == namespace ::
      m[k].body.ServiceBody? && (Selects(m[k].body.selector, labels) <==> k == own)
  }

  /** Routing: in a tidy store with what a successful pass of the cluster left, the pods of every
      endpoint are selected by its own Service, which is there; and by no other, exactly unless the
      cluster is split and a failed read hid the Service of the unified mode. */
  lemma RoutedExactly(w: World, c: Cluster, data: map<string, string>, refs: seq<SecretRef>, hash: string,
      ep: Endpoint, m: Store)
    requires RunOps(w, PassOps(c, data, refs, hash)).ok && ep in Endpoints(c.spec)
    requires Tidy(m) && SameOwn(IdOf(c), m, RunOps(w, PassOps(c, data, refs, hash)).world.objects)
    ensures var ops := PassOps(c, data, refs, hash);
            var unified := KeyOf(c, Service, SUFFIX);
            && KeyOf(c, Service, ep.suffix) in m && KeyOf(c, Deployment, ep.suffix) in m
            && m[KeyOf(c, Service, ep.suffix)].body == ServiceOp(c, ep).body
            && m[KeyOf(c, Deployment, ep.suffix)].body == DeploymentOp(c, refs, hash, ep).body
            && (SelectedOnlyBy(m, c.namespace, EndpointLabels(c.name, ep.role), KeyOf(c, Service, ep.suffix)) <==>
                !(c.spec.services.Some? && unified in w.objects && unified in Swallowed(w, ops)))
  {
    var ops := PassOps(c, data, refs, hash);
    var own, unified := KeyOf(c, Service, ep.suffix), KeyOf(c, Service, SUFFIX);
    EndpointApplied(w, c, data, refs, hash, ep);
    EndpointRole(c.spec, ep);
    OwnKey(c, Service, ep.suffix);
    OwnKey(c, Deployment, ep.suffix);
    OwnKey(c, Service, SUFFIX);
    forall k, d: ClusterId | k in m && k.kind == Service && Own(d, k) && d.namespace == c.namespace
      ensures m[k].body.ServiceBody?
      ensures Selects(m[k].body.selector, EndpointLabels(c.name, ep.role)) <==> k == own || k == unified
    {
      SelectedBy(m, c, ep.suffix, k, d);
    }
    if c.spec.services.Some? {
      StaleLeft(w, c, data, refs, hash, SUFFIX);
      SplitIsNotUnified(c, ep);
    } else {
      assert own == unified;
    }
  }

  lemma OwnKey(c: Cluster, kind: Kind, s: string)
    requires s in ROLE_SUFFIXES
    ensures Own(IdOf(c), KeyOf(c, kind, s))
  {
    RolesAreSuffixes(s);
  }

  lemma SplitIsNotUnified(c: Cluster, ep: Endpoint)
    requires c.spec.services.Some? && ep in Endpoints(c.spec)
    ensures KeyOf(c, Service, ep.suffix) != KeyOf(c, Service, SUFFIX)
  {
    assert Last(SUFFIX) == 's' && Last(AUTH_SUFFIX) == 'h' && Last(ACCT_SUFFIX) == 't' && Last(COA_SUFFIX) == 'a';
    EndpointRole(c.spec, ep);
    RolesAreSuffixes(ep.suffix);
    RolesAreSuffixes(SUFFIX);
    if c.name + ep.suffix == c.name + SUFFIX {
      NameDetermines(c.name, ep.suffix, c.name, SUFFIX);
    }
  }

  lemma EndpointApplied(w: World, c: Cluster, data: map<string, string>, refs: seq<SecretRef>, hash: string,
      ep: Endpoint)
    requires RunOps(w, PassOps(c, data, refs, hash)).ok && ep in Endpoints(c.spec)
    ensures var after := RunOps(w, PassOps(c, data, refs, hash)).world.objects;
            && KeyOf(c, Service, ep.suffix) in after && KeyOf(c, Deployment, ep.suffix) in after
            && after[KeyOf(c, Service, ep.suffix)].body == ServiceOp(c, ep).body
            && after[KeyOf(c, Deployment, ep.suffix)].body == DeploymentOp(c, refs, hash, ep).body
  {
    PassKeys(c, data, refs, hash);
    EndpointOpsHold(c, refs, hash, Endpoints(c.spec), ep);
    InPass(c, data, refs, hash, DeploymentOp(c, refs, hash, ep));
    InPass(c, data, refs, hash, ServiceOp(c, ep));
    SuccessLeaves(w, PassOps(c, data, refs, hash), DeploymentOp(c, refs, hash, ep));
    SuccessLeaves(w, PassOps(c, data, refs, hash), ServiceOp(c, ep));
  }

  // ---------------------------------------------------------------- replicas

  /** Exactly one of the autoscaler and the spec decides how many replicas an endpoint has. */
  predicate OneOwnerOfReplicas(c: Cluster, m: Store, ep: Endpoint)
    requires KeyOf(c, Deployment, ep.suffix) in m && m[KeyOf(c, Deployment, ep.suffix)].body.DeploymentBody?
  {
    var replicas := m[KeyOf(c, Deployment, ep.suffix)].body.replicas;
    var scaler := KeyOf(c, Autoscaler, ep.suffix);
    if Scaled(ep) then
      && replicas == None
      && scaler in m && m[scaler].body.AutoscalerBody? && m[scaler].body.target == c.name + ep.suffix
    else
      && replicas.Some? && replicas.value >= 1 && replicas.value >= ep.replicas && replicas.value in {1, ep.replicas}
      && scaler !in m
  }

  /** After a pass that reports success, whatever was toggled or aborted before, every endpoint has
      either an autoscaler of its Deployment and no replicas of its own, or no autoscaler and
      max(1, configured) replicas, exactly unless a failed read hid an autoscaler to be removed. */
  lemma ReplicasExactly(w: World, c: Cluster, data: map<string, string>, refs: seq<SecretRef>, hash: string,
      ep: Endpoint)
    requires RunOps(w, PassOps(c, data, refs, hash)).ok && ep in Endpoints(c.spec)
    ensures var ops := PassOps(c, data, refs, hash);
            var after := RunOps(w, ops).world.objects;
            var scaler := KeyOf(c, Autoscaler, ep.suffix);
            && KeyOf(c, Deployment, ep.suffix) in after && after[KeyOf(c, Deployment, ep.suffix)].body.DeploymentBody?
            && (OneOwnerOfReplicas(c, after, ep) <==>
                Scaled(ep) || !(scaler in w.objects && scaler in Swallowed(w, ops)))
  {
    EndpointApplied(w, c, data, refs, hash, ep);
    PassKeys(c, data, refs, hash);
    EndpointOpsHold(c, refs, hash, Endpoints(c.spec), ep);
    InPass(c, data, refs, hash, AutoscalerOp(c, ep));
    SuccessLeaves(w, PassOps(c, data, refs, hash), AutoscalerOp(c, ep));
  }

  // ---------------------------------------------------------------- references between objects

  lemma FixedOpsInPass(c: Cluster, data: map<string, string>, refs: seq<SecretRef>, hash: string)
    ensures forall op | op in [AccountOp(c), RoleOp(c), RoleBindingOp(c), ConfigMapOp(c, data), BudgetOp(c)] ::
              op in PassOps(c, data, refs, hash)
  {
    var end := AutoscalerOps(c, Endpoints(c.spec)) + [BudgetOp(c)];
    assert BudgetOp(c) in end;
    assert BudgetOp(c) in WorkloadOps(c, refs, hash) + end;
    assert BudgetOp(c) in [ConfigMapOp(c, data)] + (WorkloadOps(c, refs, hash) + end);
    assert ConfigMapOp(c, data) in [ConfigMapOp(c, data)] + (WorkloadOps(c, refs, hash) + end);
    assert forall op | op in [AccountOp(c), RoleOp(c), RoleBindingOp(c)] :: op in RBACOps(c);
  }

  /** After a pass that reports success, the names by which the objects of the cluster refer to one
      another are names of objects that are there: pods run as the account that the binding lets
      read clients and mount the ConfigMap with the rendered data, and a budget, if there is one,
      covers the pods of every endpoint. */
  lemma ReferencesResolve(w: World, c: Cluster, data: map<string, string>, refs: seq<SecretRef>, hash: string,
      ep: Endpoint)
    requires RunOps(w, PassOps(c, data, refs, hash)).ok && ep in Endpoints(c.spec)
    ensures var m := RunOps(w, PassOps(c, data, refs, hash)).world.objects;
            var deployment, binding := KeyOf(c, Deployment, ep.suffix), KeyOf(c, RoleBinding, READER_SUFFIX);
            var budget := KeyOf(c, DisruptionBudget, SUFFIX);
            && deployment in m && m[deployment].body.DeploymentBody? && binding in m && m[binding].body.RoleBindingBody?
            && Key(ServiceAccount, c.namespace, m[deployment].body.pod.account) in m
            && m[binding].body.account == m[deployment].body.pod.account
            && Key(Role, c.namespace, m[binding].body.role) in m
            && (exists v :: v in m[deployment].body.pod.volumes && v.ConfigMapVolume? &&
                  Key(ConfigMap, c.namespace, v.configMap) in m &&
                  m[Key(ConfigMap, c.namespace, v.configMap)].body == ConfigMapBody(data))
            && (BudgetOp(c).Apply? ==>
                  budget in m && m[budget].body.BudgetBody? &&
                    Selects(m[budget].body.selector, m[deployment].body.labels))
  {
    hide PassOps, RunOps, Endpoints, Selects, SecretVolumes, SecretMounts;
    PassKeys(c, data, refs, hash);
    EndpointApplied(w, c, data, refs, hash, ep);
    FixedOpsInPass(c, data, refs, hash);
    var ops := PassOps(c, data, refs, hash);
    var fixed := [AccountOp(c), RoleOp(c), RoleBindingOp(c), ConfigMapOp(c, data), BudgetOp(c)];
    forall op | op in fixed
      ensures op.Apply? ==> Slot(RunOps(w, ops).world.objects, op.key) == Goal(op, Slot(w.objects, op.key))
    {
      SuccessLeaves(w, ops, op);
    }
    assert fixed[0] in fixed && fixed[1] in fixed && fixed[2] in fixed && fixed[3] in fixed && fixed[4] in fixed;
    assert PodOf(c, refs, ep.ports).volumes[0] == ConfigMapVolume(CONFIG_VOLUME, c.name + CONFIG_SUFFIX);
    SelectsExactly(c.name, "", c.name, ep.role);
  }

  // ---------------------------------------------------------------- other clusters

  /** Passes of different clusters commute. */
  lemma ClustersCommute(m: Store, a: seq<Op>, c: Cluster, b: seq<Op>, d: Cluster)
    requires IdOf(c) != IdOf(d) && OwnOps(IdOf(c), a) && OwnOps(IdOf(d), b)
    ensures Pass(Pass(m, a), b) == Pass(Pass(m, b), a)
  {
    forall k | k in KeysOf(a) && k in KeysOf(b)
      ensures false
    {
      BelongsToOne(k, c.namespace, c.name, d.namespace, d.name);
    }
    PassesCommute(m, a, b);
  }

  // ---------------------------------------------------------------- in any interleaving

  /** Nothing that the pass is to remove was there and hidden by a failed read. */
  predicate NothingMissed(w: World, ops: seq<Op>) {
    forall k | k in Swallowed(w, ops) :: k !in w.objects
  }

  /** From an empty store, through any interleaving of any clusters, spec edits and deaths of workers:
      if the last pass of a cluster reports success and misses nothing, the cluster is in one mode,
      and every endpoint is settled. */
  lemma {:induction false} SettledInAnyInterleaving(run: Interleaving.Run, c: Cluster,
                                                    data: map<string, string>, refs: seq<SecretRef>, hash: string,
                                                    history: Interleaving.Run, script: seq<Outcome>)
    requires var s := Machine(map[], map[]); SoundMachine(s) && Legal(s, run) && Legal(s, history)
    requires |script| >= 2 * |PassOps(c, data, refs, hash)|
    requires Mine(IdOf(c), run) == history + Attempt(IdOf(c), PassOps(c, data, refs, hash), script)
    requires var w := World(After(Machine(map[], map[]), history).objects, script);
             RunOps(w, PassOps(c, data, refs, hash)).ok && NothingMissed(w, PassOps(c, data, refs, hash))
    ensures var m := After(Machine(map[], map[]), run).objects;
            && OneMode(c, m)
            && forall ep | ep in Endpoints(c.spec) :: Settled(c, m, ep)
  {
    var s := Machine(map[], map[]);
    var ops := PassOps(c, data, refs, hash);
    var w := World(After(s, history).objects, script);
    var m, alone := After(s, run).objects, RunOps(w, ops).world.objects;
    PassesAreOwn(c, data, refs, hash);
    LastPassDecides(IdOf(c), s, run, history, ops, script);
    EmptyStart();
    NeverBlocked(s, run, IdOf(c));
    OneModeExactly(w, c, data, refs, hash);
    SameMode(c, m, alone);
    forall ep | ep in Endpoints(c.spec)
      ensures Settled(c, m, ep)
    {
      EndpointSettled(w, c, data, refs, hash, m, ep);
    }
  }

  /** The endpoint has its Service, no other Service selects its pods, and its replicas have one owner. */
  ghost predicate Settled(c: Cluster, m: Store, ep: Endpoint) {
    && SelectedOnlyBy(m, c.namespace, EndpointLabels(c.name, ep.role), KeyOf(c, Service, ep.suffix))
    && KeyOf(c, Service, ep.suffix) in m
    && KeyOf(c, Deployment, ep.suffix) in m && m[KeyOf(c, Deployment, ep.suffix)].body.DeploymentBody?
    && OneOwnerOfReplicas(c, m, ep)
  }

  lemma EndpointSettled(w: World, c: Cluster, data: map<string, string>, refs: seq<SecretRef>, hash: string, m: Store,
      ep: Endpoint)
    requires RunOps(w, PassOps(c, data, refs, hash)).ok && NothingMissed(w, PassOps(c, data, refs, hash))
    requires Tidy(m) && SameOwn(IdOf(c), m, RunOps(w, PassOps(c, data, refs, hash)).world.objects) &&
             ep in Endpoints(c.spec)
    ensures Settled(c, m, ep)
  {
    RoutedExactly(w, c, data, refs, hash, ep, m);
    ReplicasExactly(w, c, data, refs, hash, ep);
    EndpointRole(c.spec, ep);
    OwnKey(c, Deployment, ep.suffix);
    OwnKey(c, Autoscaler, ep.suffix);
  }

  lemma SameMode(c: Cluster, m: Store, n: Store)
    requires SameOwn(IdOf(c), m, n) && OneMode(c, n)
    ensures OneMode(c, m)
  {
    forall s | s in StaleSuffixes(c.spec)
      ensures KeyOf(c, Deployment, s) !in m && KeyOf(c, Service, s) !in m
    {
      assert s in ROLE_SUFFIXES;
      OwnKey(c, Deployment, s);
      OwnKey(c, Service, s);
    }
  }
}
