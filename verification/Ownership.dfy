/** Whose object is whose: names are built so that no two clusters, and no two objects of one
    cluster, share a key. */
module Ownership {
  import opened Specs
  import opened Objects
  import opened ApiServers
  import opened Convergence
  import opened Clusters

  // ---------------------------------------------------------------- names

  const SUFFIXES: seq<string> := [SUFFIX, AUTH_SUFFIX, ACCT_SUFFIX, COA_SUFFIX, CONFIG_SUFFIX, READER_SUFFIX]

  function Last(s: string): char
    requires s != ""
  {
    s[|s| - 1]
  }

  /** A suffix is known by its last character. */
  lemma LastCharacters(s: string)
    requires s in SUFFIXES
    ensures s != ""
    ensures s == match Last(s)
                 case 's' => SUFFIX
                 case 'h' => AUTH_SUFFIX
                 case 't' => ACCT_SUFFIX
                 case 'a' => COA_SUFFIX
                 case 'g' => CONFIG_SUFFIX
                 case _ => READER_SUFFIX
  {
    assert Last(SUFFIX) == 's' && Last(AUTH_SUFFIX) == 'h' && Last(ACCT_SUFFIX) == 't';
    assert Last(COA_SUFFIX) == 'a' && Last(CONFIG_SUFFIX) == 'g' && Last(READER_SUFFIX) == 'r';
  }

  /** The name of an object determines the cluster and the suffix that it was built from. */
  lemma NameDetermines(a: string, s: string, b: string, t: string)
    requires s in SUFFIXES && t in SUFFIXES && a + s == b + t
    ensures a == b && s == t
  {
    LastCharacters(s);
    LastCharacters(t);
    assert Last(a + s) == Last(s) && Last(b + t) == Last(t);
    assert a == (a + s)[..|a + s| - |s|] && b == (b + t)[..|b + t| - |t|];
  }

  predicate Belongs(k: Key, namespace: string, name: string) {
    k.namespace == namespace && exists s :: s in SUFFIXES && k.name == name + s
  }

  lemma BelongsToOne(k: Key, namespace: string, name: string, otherNamespace: string, otherName: string)
    requires Belongs(k, namespace, name) && Belongs(k, otherNamespace, otherName)
    ensures namespace == otherNamespace && name == otherName
  {
    var s :| s in SUFFIXES && k.name == name + s;
    var t :| t in SUFFIXES && k.name == otherName + t;
    NameDetermines(name, s, otherName, t);
  }

  // ---------------------------------------------------------------- roles

  const ROLE_SUFFIXES: seq<string> := [SUFFIX, AUTH_SUFFIX, ACCT_SUFFIX, COA_SUFFIX]

  function RoleOf(suffix: string): string {
    if suffix == AUTH_SUFFIX then "auth"
    else if suffix == ACCT_SUFFIX then "acct"
    else if suffix == COA_SUFFIX then "coa"
    else ""
  }

  /** A Service or Deployment of the cluster carries the labels of the role that its name says. */
  predicate Routed(name: string, k: Key, body: Body) {
    (k.kind.Service? || k.kind.Deployment?) ==>
      && |name| <= |k.name|
      && k.name[|name|..] in ROLE_SUFFIXES
      && (k.kind.Service? ==> body.ServiceBody? && body.selector == EndpointLabels(name, RoleOf(k.name[|name|..])))
      && (k.kind.Deployment? ==>
          body.DeploymentBody? && body.labels == body.selector == EndpointLabels(name, RoleOf(k.name[|name|..])))
  }

  // ---------------------------------------------------------------- the keys of a pass

  function Slots(c: Cluster, kinds: set<Kind>, suffixes: seq<string>): set<Key> {
    set kind, s | kind in kinds && s in suffixes :: KeyOf(c, kind, s)
  }

  lemma SlotsApart(c: Cluster, kinds: set<Kind>, suffixes: seq<string>, otherKinds: set<Kind>, others: seq<string>)
    requires (forall s | s in suffixes + others :: s in SUFFIXES)
    requires kinds !! otherKinds || forall s | s in suffixes :: s !in others
    ensures Slots(c, kinds, suffixes) !! Slots(c, otherKinds, others)
  {
    forall k | k in Slots(c, kinds, suffixes) && k in Slots(c, otherKinds, others)
      ensures false
    {
      var kind, s :| kind in kinds && s in suffixes && k == KeyOf(c, kind, s);
      var otherKind, t :| otherKind in otherKinds && t in others && k == KeyOf(c, otherKind, t);
      NameDetermines(c.name, s, c.name, t);
    }
  }

  lemma DistinctConcat(a: seq<Op>, b: seq<Op>)
    requires Distinct(a) && Distinct(b) && KeysOf(a) !! KeysOf(b)
    ensures Distinct(a + b) && KeysOf(a + b) == KeysOf(a) + KeysOf(b)
  {
    forall i, j | 0 <= i < j < |a + b|
      ensures (a + b)[i].key != (a + b)[j].key
    {
      assert i < |a| <= j ==> a[i].key in KeysOf(a) && b[j - |a|].key in KeysOf(b);
    }
    assert forall op :: op in a + b <==> op in a || op in b;
  }

  function SuffixesOf(eps: seq<Endpoint>): seq<string> {
    seq(|eps|, i requires 0 <= i < |eps| => eps[i].suffix)
  }

  predicate GoodSuffixes(suffixes: seq<string>) {
    && (forall s | s in suffixes :: s in SUFFIXES)
    && forall i, j | 0 <= i < j < |suffixes| :: suffixes[i] != suffixes[j]
  }

  lemma OnePair(c: Cluster, a: Op, b: Op, s: string)
    requires a.key == KeyOf(c, Deployment, s) && b.key == KeyOf(c, Service, s)
    ensures Distinct([a, b]) && KeysOf([a, b]) == Slots(c, {Deployment, Service}, [s])
  {
    assert forall k :: k in KeysOf([a, b]) <==> k == a.key || k == b.key by {
      assert a in [a, b] && b in [a, b];
    }
    assert s in [s];
    assert a.key in Slots(c, {Deployment, Service}, [s]) && b.key in Slots(c, {Deployment, Service}, [s]);
  }

  lemma SlotsSplit(c: Cluster, kinds: set<Kind>, s: string, others: seq<string>)
    ensures Slots(c, kinds, [s] + others) == Slots(c, kinds, [s]) + Slots(c, kinds, others)
  {
    var all := [s] + others;
    assert forall t :: t in all <==> t in [s] || t in others;
  }

  lemma {:induction false} EndpointKeys(c: Cluster, refs: seq<SecretRef>, hash: string, eps: seq<Endpoint>)
    requires GoodSuffixes(SuffixesOf(eps))
    ensures Distinct(EndpointOps(c, refs, hash, eps))
    ensures KeysOf(EndpointOps(c, refs, hash, eps)) == Slots(c, {Deployment, Service}, SuffixesOf(eps))
    decreases |eps|
  {
    if eps != [] {
      var first := [DeploymentOp(c, refs, hash, eps[0]), ServiceOp(c, eps[0])];
      var suffixes := SuffixesOf(eps);
      assert SuffixesOf(eps[1..]) == suffixes[1..] && suffixes == [eps[0].suffix] + suffixes[1..];
      EndpointKeys(c, refs, hash, eps[1..]);
      OnePair(c, first[0], first[1], eps[0].suffix);
      SlotsSplit(c, {Deployment, Service}, eps[0].suffix, suffixes[1..]);
      SlotsApart(c, {Deployment, Service}, [eps[0].suffix], {Deployment, Service}, suffixes[1..]);
      DistinctConcat(first, EndpointOps(c, refs, hash, eps[1..]));
    }
  }

  lemma {:induction false} StaleKeys(c: Cluster, suffixes: seq<string>)
    requires GoodSuffixes(suffixes)
    ensures Distinct(StaleOps(c, suffixes))
    ensures KeysOf(StaleOps(c, suffixes)) == Slots(c, {Deployment, Service}, suffixes)
    decreases |suffixes|
  {
    if suffixes != [] {
      var first := [Remove(KeyOf(c, Deployment, suffixes[0])), Remove(KeyOf(c, Service, suffixes[0]))];
      assert suffixes == [suffixes[0]] + suffixes[1..];
      StaleKeys(c, suffixes[1..]);
      OnePair(c, first[0], first[1], suffixes[0]);
      SlotsSplit(c, {Deployment, Service}, suffixes[0], suffixes[1..]);
      SlotsApart(c, {Deployment, Service}, [suffixes[0]], {Deployment, Service}, suffixes[1..]);
      DistinctConcat(first, StaleOps(c, suffixes[1..]));
    }
  }

  lemma {:induction false} AutoscalerKeys(c: Cluster, eps: seq<Endpoint>)
    requires GoodSuffixes(SuffixesOf(eps))
    ensures Distinct(AutoscalerOps(c, eps))
    ensures KeysOf(AutoscalerOps(c, eps)) == Slots(c, {Autoscaler}, SuffixesOf(eps))
    decreases |eps|
  {
    if eps != [] {
      var suffixes := SuffixesOf(eps);
      var op := AutoscalerOp(c, eps[0]);
      assert SuffixesOf(eps[1..]) == suffixes[1..] && suffixes == [eps[0].suffix] + suffixes[1..];
      AutoscalerKeys(c, eps[1..]);
      assert KeysOf([op]) == Slots(c, {Autoscaler}, [eps[0].suffix]) by {
        assert op in [op] && eps[0].suffix in [eps[0].suffix] && op.key == KeyOf(c, Autoscaler, eps[0].suffix);
        assert op.key in KeysOf([op]) && op.key in Slots(c, {Autoscaler}, [eps[0].suffix]);
      }
      SlotsSplit(c, {Autoscaler}, eps[0].suffix, suffixes[1..]);
      SlotsApart(c, {Autoscaler}, [eps[0].suffix], {Autoscaler}, suffixes[1..]);
      DistinctConcat([op], AutoscalerOps(c, eps[1..]));
    }
  }

  /** The endpoints and the stale suffixes of a mode never meet. */
  lemma SuffixesOfMode(spec: ClusterSpec)
    ensures GoodSuffixes(SuffixesOf(Endpoints(spec))) && GoodSuffixes(StaleSuffixes(spec))
    ensures forall s | s in SuffixesOf(Endpoints(spec)) :: s !in StaleSuffixes(spec)
    ensures forall s | s in SuffixesOf(Endpoints(spec)) + StaleSuffixes(spec) :: s in SUFFIXES
  {
    assert Last(SUFFIX) == 's' && Last(AUTH_SUFFIX) == 'h' && Last(ACCT_SUFFIX) == 't' && Last(COA_SUFFIX) == 'a';
    var eps := Endpoints(spec);
    var suffixes := SuffixesOf(eps);
    assert forall i | 0 <= i < |suffixes| :: suffixes[i] == eps[i].suffix;
  }

  lemma FixedKeys(c: Cluster, data: map<string, string>)
    ensures Distinct(RBACOps(c)) && KeysOf(RBACOps(c)) <= Slots(c, {ServiceAccount, Role, RoleBinding}, SUFFIXES)
    ensures Distinct([ConfigMapOp(c, data)]) && KeysOf([ConfigMapOp(c, data)]) <= Slots(c, {ConfigMap}, SUFFIXES)
    ensures Distinct([BudgetOp(c)]) && KeysOf([BudgetOp(c)]) <= Slots(c, {DisruptionBudget}, SUFFIXES)
  {
    assert SUFFIX in SUFFIXES && READER_SUFFIX in SUFFIXES && CONFIG_SUFFIX in SUFFIXES;
  }

  lemma WorkloadKeys(c: Cluster, refs: seq<SecretRef>, hash: string)
    ensures Distinct(WorkloadOps(c, refs, hash))
    ensures KeysOf(WorkloadOps(c, refs, hash)) ==
            Slots(c, {Deployment, Service}, SuffixesOf(Endpoints(c.spec))) +
              Slots(c, {Deployment, Service}, StaleSuffixes(c.spec))
    ensures KeysOf(WorkloadOps(c, refs, hash)) <= Slots(c, {Deployment, Service}, SUFFIXES)
  {
    var suffixes, stale := SuffixesOf(Endpoints(c.spec)), StaleSuffixes(c.spec);
    SuffixesOfMode(c.spec);
    EndpointKeys(c, refs, hash, Endpoints(c.spec));
    StaleKeys(c, stale);
    assert forall s | s in suffixes :: s in suffixes + stale;
    assert forall s | s in stale :: s in suffixes + stale;
    SlotsApart(c, {Deployment, Service}, suffixes, {Deployment, Service}, stale);
    DistinctConcat(EndpointOps(c, refs, hash, Endpoints(c.spec)), StaleOps(c, stale));
  }

  /** Operations on objects of these kinds that belong to the cluster. */
  predicate Within(c: Cluster, kinds: set<Kind>, ops: seq<Op>) {
    forall op | op in ops :: op.key.kind in kinds && Belongs(op.key, c.namespace, c.name)
  }

  lemma WithinSlots(c: Cluster, kinds: set<Kind>, suffixes: seq<string>, ops: seq<Op>)
    requires (forall s | s in suffixes :: s in SUFFIXES) && KeysOf(ops) <= Slots(c, kinds, suffixes)
    ensures Within(c, kinds, ops)
  {
    forall op | op in ops
      ensures op.key.kind in kinds && Belongs(op.key, c.namespace, c.name)
    {
      assert op.key in KeysOf(ops);
    }
  }

  lemma JoinKinds(c: Cluster, kinds: set<Kind>, a: seq<Op>, otherKinds: set<Kind>, b: seq<Op>)
    requires Distinct(a) && Distinct(b) && Within(c, kinds, a) && Within(c, otherKinds, b) && kinds !! otherKinds
    ensures Distinct(a + b) && Within(c, kinds + otherKinds, a + b)
  {
    assert forall k | k in KeysOf(a) :: k.kind in kinds;
    assert forall k | k in KeysOf(b) :: k.kind in otherKinds;
    DistinctConcat(a, b);
  }

  /** No pass touches an object twice, and all that it touches belongs to its cluster. */
  lemma PassKeys(c: Cluster, data: map<string, string>, refs: seq<SecretRef>, hash: string)
    ensures Distinct(PassOps(c, data, refs, hash))
    ensures forall k | k in KeysOf(PassOps(c, data, refs, hash)) :: Belongs(k, c.namespace, c.name)
  {
    var budget := [BudgetOp(c)];
    var scalers := AutoscalerOps(c, Endpoints(c.spec));
    var config := [ConfigMapOp(c, data)];
    var workloads := WorkloadOps(c, refs, hash);
    FixedKeys(c, data);
    SuffixesOfMode(c.spec);
    assert forall s | s in SuffixesOf(Endpoints(c.spec)) :: s in SuffixesOf(Endpoints(c.spec)) + StaleSuffixes(c.spec);
    AutoscalerKeys(c, Endpoints(c.spec));
    WorkloadKeys(c, refs, hash);
    WithinSlots(c, {ServiceAccount, Role, RoleBinding}, SUFFIXES, RBACOps(c));
    WithinSlots(c, {ConfigMap}, SUFFIXES, config);
    WithinSlots(c, {Deployment, Service}, SUFFIXES, workloads);
    WithinSlots(c, {Autoscaler}, SuffixesOf(Endpoints(c.spec)), scalers);
    WithinSlots(c, {DisruptionBudget}, SUFFIXES, budget);
    JoinAll(c, RBACOps(c), config, workloads, scalers, budget);
  }

  lemma JoinAll(c: Cluster, rbac: seq<Op>, config: seq<Op>, workloads: seq<Op>, scalers: seq<Op>, budget: seq<Op>)
    requires Distinct(rbac) && Distinct(config) && Distinct(workloads) && Distinct(scalers) && Distinct(budget)
    requires Within(c, {ServiceAccount, Role, RoleBinding}, rbac) && Within(c, {ConfigMap}, config)
    requires Within(c, {Deployment, Service}, workloads) && Within(c, {Autoscaler}, scalers) &&
             Within(c, {DisruptionBudget}, budget)
    ensures var ops := rbac + (config + (workloads + (scalers + budget)));
            Distinct(ops) && forall k | k in KeysOf(ops) :: Belongs(k, c.namespace, c.name)
  {
    JoinKinds(c, {Autoscaler}, scalers, {DisruptionBudget}, budget);
    JoinKinds(c, {Deployment, Service}, workloads, {Autoscaler} + {DisruptionBudget}, scalers + budget);
    JoinKinds(c, {ConfigMap}, config, {Deployment, Service} + ({Autoscaler} + {DisruptionBudget}),
              workloads + (scalers + budget));
    JoinKinds(c, {ServiceAccount, Role, RoleBinding}, rbac,
              {ConfigMap} + ({Deployment, Service} + ({Autoscaler} + {DisruptionBudget})),
                config + (workloads + (scalers + budget)));
  }
}
