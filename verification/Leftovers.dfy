/** What no pass cleans up: objects of endpoints that a split cluster no longer configures, and
    autoscalers of the other mode. */
module Leftovers {
  import opened Specs
  import opened Objects
  import opened ApiServers
  import opened Convergence
  import opened Clusters
  import opened Ownership
  import opened Routing

  /** The cluster has no endpoint with this suffix. */
  predicate Dropped(spec: ClusterSpec, s: string) {
    s in ROLE_SUFFIXES && s !in SuffixesOf(Endpoints(spec))
  }

  /** Only endpoints that are configured have objects. */
  ghost predicate NoLeftovers(c: Cluster, m: Store) {
    forall s, kind | Dropped(c.spec, s) && kind in {Deployment, Service, Autoscaler} :: KeyOf(c, kind, s) !in m
  }

  /** A pass looks for these objects of endpoints that are gone. */
  predicate LookedFor(spec: ClusterSpec, s: string, kind: Kind) {
    kind != Autoscaler && s in StaleSuffixes(spec)
  }

  /** Nothing that a pass would not look for is there. */
  ghost predicate NothingUnseen(c: Cluster, m: Store) {
    forall s, kind | Dropped(c.spec, s) && kind in {Deployment, Service, Autoscaler} && !LookedFor(c.spec, s, kind) ::
      KeyOf(c, kind, s) !in m
  }

  lemma SlotIs(c: Cluster, kinds: set<Kind>, suffixes: seq<string>, kind: Kind, s: string)
    requires (forall t | t in suffixes :: t in SUFFIXES) && s in SUFFIXES
    ensures KeyOf(c, kind, s) in Slots(c, kinds, suffixes) <==> kind in kinds && s in suffixes
  {
    if KeyOf(c, kind, s) in Slots(c, kinds, suffixes) {
      var other, t :| other in kinds && t in suffixes && KeyOf(c, kind, s) == KeyOf(c, other, t);
      NameDetermines(c.name, s, c.name, t);
    }
  }

  lemma NotAmong(c: Cluster, kinds: set<Kind>, suffixes: seq<string>, ops: seq<Op>, kind: Kind, s: string)
    requires KeysOf(ops) == Slots(c, kinds, suffixes)
    requires (forall t | t in suffixes :: t in SUFFIXES) && s in SUFFIXES && !(kind in kinds && s in suffixes)
    ensures forall op | op in ops :: op.key != KeyOf(c, kind, s)
  {
    SlotIs(c, kinds, suffixes, kind, s);
    hide KeyOf, Slots;
    forall op | op in ops
      ensures op.key != KeyOf(c, kind, s)
    {
      assert op.key in KeysOf(ops);
    }
  }

  lemma NotInPass(c: Cluster, data: map<string, string>, refs: seq<SecretRef>, hash: string, s: string, kind: Kind)
    requires Dropped(c.spec, s) && kind in {Deployment, Service, Autoscaler} && !LookedFor(c.spec, s, kind)
    ensures KeyOf(c, kind, s) !in KeysOf(PassOps(c, data, refs, hash))
  {
    hide PassOps, EndpointOps, StaleOps, AutoscalerOps, Endpoints, StaleSuffixes, SuffixesOf, Slots;
    var eps, suffixes, stale := Endpoints(c.spec), SuffixesOf(Endpoints(c.spec)), StaleSuffixes(c.spec);
    SuffixesOfMode(c.spec);
    RoleSuffixesAreSuffixes();
    EndpointKeys(c, refs, hash, eps);
    StaleKeys(c, stale);
    AutoscalerKeys(c, eps);
    NotAmong(c, {Deployment, Service}, suffixes, EndpointOps(c, refs, hash, eps), kind, s);
    NotAmong(c, {Deployment, Service}, stale, StaleOps(c, stale), kind, s);
    NotAmong(c, {Autoscaler}, suffixes, AutoscalerOps(c, eps), kind, s);
    forall op | op in PassOps(c, data, refs, hash)
      ensures op.key != KeyOf(c, kind, s)
    {
      WhereFrom(c, data, refs, hash, op);
    }
  }

  lemma RoleSuffixesAreSuffixes()
    ensures forall s | s in ROLE_SUFFIXES :: s in SUFFIXES
  {
    assert ROLE_SUFFIXES == SUFFIXES[..4];
  }

  lemma StaleIsDropped(spec: ClusterSpec)
    ensures forall s | s in StaleSuffixes(spec) :: Dropped(spec, s)
  {
    SuffixesOfMode(spec);
    assert SUFFIX in ROLE_SUFFIXES && AUTH_SUFFIX in ROLE_SUFFIXES;
    assert ACCT_SUFFIX in ROLE_SUFFIXES && COA_SUFFIX in ROLE_SUFFIXES;
  }

  /** After a pass that reports success the cluster has objects of its endpoints only, exactly unless a
      failed read hid an object of the other mode, or one was there that no pass looks for: of a role
      that a split cluster no longer configures, or an autoscaler of the other mode. */
  lemma NoLeftoversExactly(w: World, c: Cluster, data: map<string, string>, refs: seq<SecretRef>, hash: string)
    requires RunOps(w, PassOps(c, data, refs, hash)).ok
    ensures var ops := PassOps(c, data, refs, hash);
            NoLeftovers(c, RunOps(w, ops).world.objects) <==> !StaleMissed(c, w, ops) && NothingUnseen(c, w.objects)
  {
    var ops := PassOps(c, data, refs, hash);
    var after := RunOps(w, ops).world.objects;
    StaleIsDropped(c.spec);
    forall s, kind | Dropped(c.spec, s) && kind in {Deployment, Service, Autoscaler} && !LookedFor(c.spec, s, kind)
      ensures KeyOf(c, kind, s) in after <==> KeyOf(c, kind, s) in w.objects
    {
      NotInPass(c, data, refs, hash, s, kind);
      OthersUntouched(w, ops, KeyOf(c, kind, s));
    }
    OneModeExactly(w, c, data, refs, hash);
    hide PassOps, RunOps, Endpoints, StaleMissed, Dropped, StaleSuffixes;
    if NoLeftovers(c, after) {
      assert OneMode(c, after);
    }
    if OneMode(c, after) && NothingUnseen(c, w.objects) {
      forall s, kind | Dropped(c.spec, s) && kind in {Deployment, Service, Autoscaler}
        ensures KeyOf(c, kind, s) !in after
      {
        if !LookedFor(c.spec, s, kind) {
          assert KeyOf(c, kind, s) !in w.objects;
        }
      }
    }
  }

  /** A split cluster that no longer configures CoA keeps its CoA Deployment and Service as they were,
      whatever its passes report. */
  lemma DroppedRoleStays(w: World, c: Cluster, data: map<string, string>, refs: seq<SecretRef>, hash: string)
    requires c.spec.services.Some? && c.spec.services.value.coa.None?
    ensures var after := RunOps(w, PassOps(c, data, refs, hash)).world.objects;
            && Slot(after, KeyOf(c, Deployment, COA_SUFFIX)) == Slot(w.objects, KeyOf(c, Deployment, COA_SUFFIX))
            && Slot(after, KeyOf(c, Service, COA_SUFFIX)) == Slot(w.objects, KeyOf(c, Service, COA_SUFFIX))
  {
    var eps := Endpoints(c.spec);
    assert COA_SUFFIX in ROLE_SUFFIXES && COA_SUFFIX != AUTH_SUFFIX;
    forall i | 0 <= i < |eps|
      ensures SuffixesOf(eps)[i] != COA_SUFFIX
    {
      assert eps[i].suffix == AUTH_SUFFIX || eps[i].suffix == ACCT_SUFFIX;
      assert |ACCT_SUFFIX| == |AUTH_SUFFIX| != |COA_SUFFIX|;
    }
    assert |SUFFIX| != |COA_SUFFIX|;
    NotInPass(c, data, refs, hash, COA_SUFFIX, Deployment);
    NotInPass(c, data, refs, hash, COA_SUFFIX, Service);
    OthersUntouched(w, PassOps(c, data, refs, hash), KeyOf(c, Deployment, COA_SUFFIX));
    OthersUntouched(w, PassOps(c, data, refs, hash), KeyOf(c, Service, COA_SUFFIX));
  }
}
