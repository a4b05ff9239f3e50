/** Which Secrets a cluster needs, and that each reference the renderer prints is to a mounted one
    (collectSecretRefs, buildPodSpec). */
module Secrets {
  import opened Wrappers
  import opened Text
  import opened Specs
  import opened Objects
  import opened Clusters
  import opened Clients

  // ---------------------------------------------------------------- collecting

  function OptionalRef(ref: Option<SecretRef>): seq<SecretRef> {
    if ref.Some? then [ref.value] else []
  }

  function SQLPassword(c: Option<SQLConfig>): Option<SecretRef> {
    if c.Some? then Some(c.value.password) else None
  }

  function LDAPPassword(c: Option<LDAPConfig>): Option<SecretRef> {
    if c.Some? then Some(c.value.password) else None
  }

  function RESTPassword(c: Option<RESTConfig>): Option<SecretRef> {
    if c.Some? then c.value.password else None
  }

  function RedisPassword(c: Option<RedisConfig>): Option<SecretRef> {
    if c.Some? then c.value.password else None
  }

  /** The references of a module, whatever its type, in the order in which they are looked at. */
  function ModuleRefs(m: ModuleConfig): seq<SecretRef> {
    if !m.enabled then []
    else OptionalRef(SQLPassword(m.sql)) + (OptionalRef(LDAPPassword(m.ldap)) +
         (OptionalRef(RESTPassword(m.rest)) + OptionalRef(RedisPassword(m.redis))))
  }

  function AllModuleRefs(modules: seq<ModuleConfig>): seq<SecretRef> {
    if modules == [] then [] else AllModuleRefs(modules[..|modules| - 1]) + ModuleRefs(modules[|modules| - 1])
  }

  function ClientRefs(clients: seq<RadiusClient>): seq<SecretRef> {
    if clients == [] then [] else ClientRefs(clients[..|clients| - 1]) + [clients[|clients| - 1].secretRef]
  }

  function Candidates(spec: ClusterSpec, clients: seq<RadiusClient>): seq<SecretRef> {
    (if spec.tls.Some? && spec.tls.value.enabled then [spec.tls.value.secretRef] else []) +
    AllModuleRefs(spec.modules) + ClientRefs(clients)
  }

  function Names(refs: seq<SecretRef>): set<string> {
    set r | r in refs :: r.name
  }

  /** The first reference to each named Secret, in order. */
  function FirstOfEach(refs: seq<SecretRef>): seq<SecretRef> {
    if refs == [] then []
    else
      var before, last := FirstOfEach(refs[..|refs| - 1]), refs[|refs| - 1];
      if last.name == "" || last.name in Names(before) then before else before + [last]
  }

  lemma FirstStep(refs: seq<SecretRef>, ref: SecretRef)
    ensures FirstOfEach(refs + [ref]) ==
            var before := FirstOfEach(refs);
            if ref.name == "" || ref.name in Names(before) then before else before + [ref]
    ensures Names(FirstOfEach(refs) + [ref]) == Names(FirstOfEach(refs)) + {ref.name}
  {
    var all := refs + [ref];
    assert all[..|all| - 1] == refs && all[|all| - 1] == ref;
    var before := FirstOfEach(refs);
    assert forall r :: r in before + [ref] <==> r in before || r == ref;
  }

  /** The closure that adds a reference unless it is unnamed or its Secret has been seen. */
  class Collector {
    var seen: set<string>
    var refs: seq<SecretRef>
    ghost var offered: seq<SecretRef>

    ghost predicate Valid()
      reads this
    {
      refs == FirstOfEach(offered) && seen == Names(refs)
    }

    constructor ()
      ensures Valid() && offered == []
    {
      seen, refs, offered := {}, [], [];
    }

    method Add(ref: SecretRef)
      requires Valid()
      modifies this
      ensures Valid() && offered == old(offered) + [ref]
    {
      FirstStep(offered, ref);
      offered := offered + [ref];
      if ref.name == "" || ref.name in seen {
        return;
      }
      seen := seen + {ref.name};
      refs := refs + [ref];
    }
  }

  method AddIfPresent(collector: Collector, ref: Option<SecretRef>)
    requires collector.Valid()
    modifies collector
    ensures collector.Valid() && collector.offered == old(collector.offered) + OptionalRef(ref)
  {
    if ref.Some? {
      collector.Add(ref.value);
    }
  }

  lemma Four(offered: seq<SecretRef>, a: seq<SecretRef>, b: seq<SecretRef>, c: seq<SecretRef>, d: seq<SecretRef>)
    ensures (((offered + a) + b) + c) + d == offered + (a + (b + (c + d)))
  {
  }

  method AddModule(collector: Collector, m: ModuleConfig)
    requires collector.Valid()
    modifies collector
    ensures collector.Valid() && collector.offered == old(collector.offered) + ModuleRefs(m)
  {
    if m.enabled {
      AddIfPresent(collector, SQLPassword(m.sql));
      AddIfPresent(collector, LDAPPassword(m.ldap));
      AddIfPresent(collector, RESTPassword(m.rest));
      AddIfPresent(collector, RedisPassword(m.redis));
      Four(old(collector.offered), OptionalRef(SQLPassword(m.sql)), OptionalRef(LDAPPassword(m.ldap)),
           OptionalRef(RESTPassword(m.rest)), OptionalRef(RedisPassword(m.redis)));
    }
  }

  lemma ModulesStep(offered: seq<SecretRef>, modules: seq<ModuleConfig>, i: nat)
    requires i < |modules|
    ensures offered + AllModuleRefs(modules[..i + 1]) ==
            (offered + AllModuleRefs(modules[..i])) + ModuleRefs(modules[i])
  {
    var upTo := modules[..i + 1];
    assert upTo[..i] == modules[..i] && upTo[i] == modules[i];
    assert AllModuleRefs(upTo) == AllModuleRefs(upTo[..i]) + ModuleRefs(upTo[i]);
  }

  method AddModules(collector: Collector, modules: seq<ModuleConfig>)
    requires collector.Valid()
    modifies collector
    ensures collector.Valid() && collector.offered == old(collector.offered) + AllModuleRefs(modules)
  {
    for i := 0 to |modules|
      invariant collector.Valid() && collector.offered == old(collector.offered) + AllModuleRefs(modules[..i])
    {
      ModulesStep(old(collector.offered), modules, i);
      AddModule(collector, modules[i]);
    }
    assert modules[..|modules|] == modules;
  }

  method AddClients(collector: Collector, clients: seq<RadiusClient>)
    requires collector.Valid()
    modifies collector
    ensures collector.Valid() && collector.offered == old(collector.offered) + ClientRefs(clients)
  {
    for i := 0 to |clients|
      invariant collector.Valid() && collector.offered == old(collector.offered) + ClientRefs(clients[..i])
    {
      assert clients[..i + 1][..i] == clients[..i];
      collector.Add(clients[i].secretRef);
    }
    assert clients[..|clients|] == clients;
  }

  method CollectSecretRefs(spec: ClusterSpec, clients: seq<RadiusClient>) returns (refs: seq<SecretRef>)
    ensures refs == FirstOfEach(Candidates(spec, clients))
  {
    var collector := new Collector();
    if spec.tls.Some? && spec.tls.value.enabled {
      collector.Add(spec.tls.value.secretRef);
    }
    AddModules(collector, spec.modules);
    AddClients(collector, clients);
    return collector.refs;
  }

  lemma {:induction false} FirstNames(refs: seq<SecretRef>)
    ensures Names(FirstOfEach(refs)) == Names(refs) - {""}
  {
    if refs != [] {
      var n := |refs| - 1;
      FirstNames(refs[..n]);
      FirstStep(refs[..n], refs[n]);
      assert refs == refs[..n] + [refs[n]];
      NamesGrow(refs[..n], refs[n]);
    }
  }

  lemma NamesGrow(refs: seq<SecretRef>, ref: SecretRef)
    ensures Names(refs + [ref]) == Names(refs) + {ref.name}
  {
    assert forall r :: r in refs + [ref] <==> r in refs || r == ref;
  }

  lemma {:induction false} FirstDistinct(refs: seq<SecretRef>)
    ensures forall i, j | 0 <= i < j < |FirstOfEach(refs)| :: FirstOfEach(refs)[i].name != FirstOfEach(refs)[j].name
  {
    if refs != [] {
      var before := FirstOfEach(refs[..|refs| - 1]);
      FirstDistinct(refs[..|refs| - 1]);
      assert forall i | 0 <= i < |before| :: before[i].name in Names(before);
    }
  }

  /** The reference at `k` is the first one to its Secret. */
  predicate FirstAt(refs: seq<SecretRef>, k: nat) {
    k < |refs| && forall j | 0 <= j < k :: refs[j].name != refs[k].name
  }

  lemma {:induction false} CollectedFirst(refs: seq<SecretRef>, r: SecretRef)
    requires r in FirstOfEach(refs)
    ensures exists k: nat :: FirstAt(refs, k) && refs[k] == r
  {
    var n := |refs| - 1;
    var before := refs[..n];
    if r in FirstOfEach(before) {
      CollectedFirst(before, r);
      var k: nat :| FirstAt(before, k) && before[k] == r;
      assert FirstAt(refs, k) && refs[k] == r;
    } else {
      FirstNames(before);
      forall j | 0 <= j < n
        ensures refs[j].name != r.name
      {
        assert refs[j] in before && refs[j].name in Names(before);
      }
      assert FirstAt(refs, n) && refs[n] == r;
    }
  }

  /** Every named Secret is referred to once, by the reference that named it first, and no other is. */
  lemma FirstOfEachIs(refs: seq<SecretRef>)
    ensures Names(FirstOfEach(refs)) == Names(refs) - {""}
    ensures forall i, j | 0 <= i < j < |FirstOfEach(refs)| :: FirstOfEach(refs)[i].name != FirstOfEach(refs)[j].name
    ensures forall r | r in FirstOfEach(refs) :: exists k: nat :: FirstAt(refs, k) && refs[k] == r
  {
    FirstNames(refs);
    FirstDistinct(refs);
    forall r | r in FirstOfEach(refs)
      ensures exists k: nat :: FirstAt(refs, k) && refs[k] == r
    {
      CollectedFirst(refs, r);
    }
  }

  // ---------------------------------------------------------------- printing

  /** The references that the template of a module prints: by its type, unless the module is raw. */
  function PrintedRefs(m: ModuleConfig): seq<SecretRef> {
    if !m.enabled || m.rawConfig != "" then []
    else if m.moduleType == "rlm_sql" && m.sql.Some? then [m.sql.value.password]
    else if m.moduleType == "rlm_ldap" && m.ldap.Some? then [m.ldap.value.password]
    else if m.moduleType == "rlm_rest" && m.rest.Some? then OptionalRef(m.rest.value.password)
    else if m.moduleType == "rlm_redis" && m.redis.Some? then OptionalRef(m.redis.value.password)
    else []
  }

  /** Some enabled, templated module or some templated client of the cluster prints the reference. */
  predicate Printed(spec: ClusterSpec, clients: seq<RadiusClient>, ref: SecretRef) {
    || (exists m :: m in spec.modules && ref in PrintedRefs(m))
    || (exists c :: c in clients && c.rawConfig == "" && c.secretRef == ref)
  }

  lemma PrintedFromModule(m: ModuleConfig, ref: SecretRef)
    requires ref in PrintedRefs(m)
    ensures ref in ModuleRefs(m)
  {
    var remote := OptionalRef(RESTPassword(m.rest)) + OptionalRef(RedisPassword(m.redis));
    var rest := OptionalRef(LDAPPassword(m.ldap)) + remote;
    assert ref in OptionalRef(SQLPassword(m.sql)) || ref in OptionalRef(LDAPPassword(m.ldap)) || ref in remote;
    assert ref in OptionalRef(SQLPassword(m.sql)) || ref in rest;
  }

  lemma InEither(a: seq<SecretRef>, b: seq<SecretRef>, ref: SecretRef)
    requires ref in a || ref in b
    ensures ref in a + b
  {
  }

  lemma AllModuleRefsSplit(modules: seq<ModuleConfig>, n: nat)
    requires |modules| == n + 1
    ensures AllModuleRefs(modules) == AllModuleRefs(modules[..n]) + ModuleRefs(modules[n])
  {
  }

  lemma {:induction false} ModuleCandidate(modules: seq<ModuleConfig>, m: ModuleConfig, ref: SecretRef)
    requires m in modules && ref in ModuleRefs(m)
    ensures ref in AllModuleRefs(modules)
  {
    var n := |modules| - 1;
    var last := modules[n];
    if m != last {
      assert m in modules[..n];
      ModuleCandidate(modules[..n], m, ref);
    }
    AllModuleRefsSplit(modules, n);
    InEither(AllModuleRefs(modules[..n]), ModuleRefs(last), ref);
  }

  lemma {:induction false} ClientCandidate(clients: seq<RadiusClient>, c: RadiusClient)
    requires c in clients
    ensures c.secretRef in ClientRefs(clients)
  {
    var n := |clients| - 1;
    if c != clients[n] {
      assert c in clients[..n];
      ClientCandidate(clients[..n], c);
    }
  }

  lemma PrintedIsCandidate(spec: ClusterSpec, clients: seq<RadiusClient>, ref: SecretRef)
    requires Printed(spec, clients, ref)
    ensures ref in Candidates(spec, clients)
  {
    if m :| m in spec.modules && ref in PrintedRefs(m) {
      PrintedFromModule(m, ref);
      ModuleCandidate(spec.modules, m, ref);
    } else {
      var c :| c in clients && c.rawConfig == "" && c.secretRef == ref;
      ClientCandidate(clients, c);
    }
  }

  // ---------------------------------------------------------------- mounting

  lemma {:induction false} MountsAre(refs: seq<SecretRef>)
    ensures |SecretVolumes(refs)| == |SecretMounts(refs)| == |refs|
    ensures forall i | 0 <= i < |refs| ::
              && SecretVolumes(refs)[i] == SecretVolume("secret-" + refs[i].name, refs[i].name)
              && SecretMounts(refs)[i] == Mount("secret-" + refs[i].name, SecretDirectory(refs[i].name))
  {
    if refs != [] {
      MountsAre(refs[..|refs| - 1]);
    }
  }

  /** A volume with the Secret, mounted at its directory in every container that reads secrets. */
  predicate Mounted(pod: PodSpec, name: string) {
    var mount := Mount("secret-" + name, SecretDirectory(name));
    SecretVolume("secret-" + name, name) in pod.volumes && mount in pod.configInit && mount in pod.renderClients &&
      mount in pod.main
  }

  lemma DirectoriesDiffer(a: string, b: string)
    ensures SecretDirectory(a) == SecretDirectory(b) <==> a == b
    ensures "secret-" + a == "secret-" + b <==> a == b
  {
    assert SecretDirectory(a)[|"/etc/freeradius"| + |"/secrets/"|..] == a;
    assert SecretDirectory(b)[|"/etc/freeradius"| + |"/secrets/"|..] == b;
    assert ("secret-" + a)[|"secret-"|..] == a && ("secret-" + b)[|"secret-"|..] == b;
  }

  lemma MountedExactly(c: Cluster, refs: seq<SecretRef>, ports: seq<Port>, name: string)
    ensures Mounted(PodOf(c, refs, ports), name) <==> name in Names(refs)
  {
    var pod := PodOf(c, refs, ports);
    var volume := SecretVolume("secret-" + name, name);
    MountsAre(refs);
    if name in Names(refs) {
      var i :| 0 <= i < |refs| && refs[i].name == name;
      assert SecretVolumes(refs)[i] == volume;
      assert SecretMounts(refs)[i] == Mount("secret-" + name, SecretDirectory(name));
    }
    if volume in pod.volumes {
      assert volume in SecretVolumes(refs);
      var i :| 0 <= i < |refs| && SecretVolumes(refs)[i] == volume;
      assert refs[i] in refs;
    }
  }

  /** Secret coverage: a reference that the renderer prints for a cluster has its Secret mounted, in
      the directory that it points into, exactly if it names one. */
  lemma PrintedRefsAreMounted(c: Cluster, clients: seq<RadiusClient>, ref: SecretRef, ports: seq<Port>)
    requires Printed(c.spec, clients, ref)
    ensures Mounted(PodOf(c, FirstOfEach(Candidates(c.spec, clients)), ports), ref.name) <==> ref.name != ""
    ensures SecretPath(ref) == SecretDirectory(ref.name) + ("/" + ref.key)
  {
    var refs := FirstOfEach(Candidates(c.spec, clients));
    PrintedIsCandidate(c.spec, clients, ref);
    FirstOfEachIs(Candidates(c.spec, clients));
    MountedExactly(c, refs, ports, ref.name);
    assert ref.name in Names(Candidates(c.spec, clients));
    Assoc("/secrets/", ref.name, "/" + ref.key);
    Assoc("/etc/freeradius", "/secrets/" + ref.name, "/" + ref.key);
  }

  lemma VolumeNames(c: Cluster, refs: seq<SecretRef>, ports: seq<Port>, i: nat)
    requires i < |PodOf(c, refs, ports).volumes|
    ensures |PodOf(c, refs, ports).volumes| == |refs| + 2
    ensures PodOf(c, refs, ports).volumes[i].name ==
            if i == 0 then CONFIG_VOLUME else if i == 1 then RENDERED_VOLUME else "secret-" + refs[i - 2].name
  {
    MountsAre(refs);
    assert i >= 2 ==> PodOf(c, refs, ports).volumes[i] == SecretVolumes(refs)[i - 2];
  }

  lemma NamesApart(name: string)
    ensures CONFIG_VOLUME != RENDERED_VOLUME && "secret-" + name != CONFIG_VOLUME && "secret-" + name != RENDERED_VOLUME
  {
    assert |CONFIG_VOLUME| == 17 && |RENDERED_VOLUME| == 26 && CONFIG_VOLUME[0] == RENDERED_VOLUME[0] == 'f';
    assert ("secret-" + name)[0] == 's';
  }

  /** The pod is well formed: no two volumes have one name. */
  lemma VolumesDistinct(c: Cluster, clients: seq<RadiusClient>, ports: seq<Port>, i: nat, j: nat)
    requires i < j < |PodOf(c, FirstOfEach(Candidates(c.spec, clients)), ports).volumes|
    ensures var volumes := PodOf(c, FirstOfEach(Candidates(c.spec, clients)), ports).volumes;
            volumes[i].name != volumes[j].name
  {
    var refs := FirstOfEach(Candidates(c.spec, clients));
    VolumeNames(c, refs, ports, i);
    VolumeNames(c, refs, ports, j);
    FirstDistinct(Candidates(c.spec, clients));
    NamesApart(if j >= 2 then refs[j - 2].name else "");
    if i >= 2 {
      DirectoriesDiffer(refs[i - 2].name, refs[j - 2].name);
    }
  }
}
