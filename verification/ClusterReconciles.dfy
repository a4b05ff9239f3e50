/** One reconcile of a cluster, from reading it to its final status, and what any number of them
    leave (RadiusClusterReconciler.Reconcile). */
module ClusterReconciles {
  import opened Wrappers
  import opened Specs
  import opened Objects
  import opened ApiServers
  import opened Convergence
  import opened Clusters
  import opened ClusterPasses
  import opened Clients
  import opened ConfigHash
  import opened Flattening
  import opened Rendering
  import opened Secrets
  import opened Sites
  import opened Statuses

  /** A RadiusPolicy object. */
  datatype RadiusPolicy = RadiusPolicy(clusterRef: string, spec: PolicySpec)

  /** What a pass reads besides its own objects: whether the cluster exists at first; the cluster as it
      is read again after the first status write, if it still exists; all clients and policies of the
      namespace; and the names of its Secrets. A cluster that vanishes later reads like one that
      cannot be read. */
  datatype Inputs = Inputs(
    found: bool, cluster: Option<Cluster>, clients: seq<RadiusClient>, policies: seq<RadiusPolicy>,
    secrets: set<string>)

  /** How a reconcile ends. */
  datatype End =
    | Gone
    | Unread
    | ReadFailed
    | MissingSecret
    | InvalidSpec
    | RenderFailed
    | StepFailed
    | LateReadFailed
    | Completed

  /** The steps on the cluster's objects were not reached. */
  predicate BeforeSteps(end: End) {
    !end.StepFailed? && !end.LateReadFailed? && !end.Completed?
  }

  // ---------------------------------------------------------------- what is read

  function MatchingClients(items: seq<RadiusClient>, name: string): seq<RadiusClient> {
    if items == [] then []
    else
      MatchingClients(items[..|items| - 1], name) +
      if items[|items| - 1].clusterRef == name then [items[|items| - 1]] else []
  }

  function MatchingPolicies(items: seq<RadiusPolicy>, name: string): seq<PolicySpec> {
    if items == [] then []
    else
      MatchingPolicies(items[..|items| - 1], name) +
      if items[|items| - 1].clusterRef == name then [items[|items| - 1].spec] else []
  }

  /** Unlike in the init container, the raw text of a client is kept. */
  function ClientSpecs(cs: seq<RadiusClient>): seq<ClientSpec> {
    seq(|cs|,
        i requires 0 <= i < |cs| => ClientSpec(cs[i].name, cs[i].ip, cs[i].secretRef, cs[i].nasType, cs[i].rawConfig))
  }

  function CoAOn(spec: ClusterSpec): bool {
    spec.coa.Some? && spec.coa.value.enabled
  }

  function RenderContext(c: Cluster, clients: seq<RadiusClient>, policies: seq<PolicySpec>): Context {
    Context(c.spec.image, c.spec.replicas, c.spec.modules, CoAOn(c.spec), RenderedCoAPort(c.spec),
            ClientSpecs(clients), policies)
  }

  /** The port that radiusd.conf listens on: only 0 stands for the default here. */
  function RenderedCoAPort(spec: ClusterSpec): int {
    if !CoAOn(spec) then 0 else if spec.coa.value.port == 0 then 3799 else spec.coa.value.port
  }

  /** A container and a Service of the cluster open this port for CoA. */
  ghost predicate Opens(spec: ClusterSpec, port: int) {
    exists ep :: ep in Endpoints(spec) && Port("coa", port) in ep.ports
  }

  /** CoA is turned on for endpoints by `coa`, or in split mode by `services.coa` alone. */
  predicate CoAOpened(spec: ClusterSpec) {
    if spec.services.None? then CoAOn(spec) else spec.services.value.coa.Some?
  }

  lemma OpensExactly(spec: ClusterSpec, port: int)
    ensures Opens(spec, port) <==> CoAOpened(spec) && port == CoAPort(spec)
  {
    if spec.services.None? {
      var ports := UnifiedPorts(spec);
      assert Port("coa", port) in ports <==> CoAOn(spec) && port == CoAPort(spec) by {
        assert ports[0] == Port("auth", 1812) && ports[1] == Port("acct", 1813);
        assert CoAOn(spec) ==> ports[2] == Port("coa", CoAPort(spec));
      }
      assert Endpoints(spec)[0].ports == ports;
    } else {
      var eps := Endpoints(spec);
      if spec.services.value.coa.Some? {
        assert eps[|eps| - 1] in eps && eps[|eps| - 1].ports == [Port("coa", CoAPort(spec))];
      }
      forall ep | ep in eps
        ensures Port("coa", port) in ep.ports <==> ep.role == "coa" && port == CoAPort(spec)
        ensures ep.role == "coa" ==> spec.services.value.coa.Some?
      {
        assert |ep.ports| == 1 && ep.ports[0].name == ep.role;
      }
    }
  }

  /** The CoA port that is rendered is the one, and the only one, that is opened, exactly if `coa` and
      the endpoints agree on whether there is one, and it is not configured negative. */
  lemma CoAPortsAgreeExactly(spec: ClusterSpec)
    ensures (forall port :: Opens(spec, port) <==> CoAOn(spec) && port == RenderedCoAPort(spec)) <==>
            (CoAOpened(spec) <==> CoAOn(spec)) && (CoAOn(spec) ==> spec.coa.value.port >= 0)
  {
    forall port
      ensures Opens(spec, port) <==> CoAOpened(spec) && port == CoAPort(spec)
    {
      OpensExactly(spec, port);
    }
    assert Opens(spec, CoAPort(spec)) <==> CoAOpened(spec);
    assert Opens(spec, RenderedCoAPort(spec)) <==> CoAOpened(spec) && RenderedCoAPort(spec) == CoAPort(spec);
  }

  /** A cluster with an endpoint for CoA and no `coa` section opens port 3799, while its configuration
      has CoA off. */
  lemma PortWithoutListener(spec: ClusterSpec)
    requires spec.services.Some? && spec.services.value.coa.Some? && spec.coa.None?
    ensures Opens(spec, 3799) && !RenderContext(Cluster("ns", "c", spec), [], []).coaEnabled
  {
    OpensExactly(spec, 3799);
  }

  function ContextOf(c: Cluster, inputs: Inputs): Context {
    RenderContext(c, MatchingClients(inputs.clients, c.name), MatchingPolicies(inputs.policies, c.name))
  }

  function RefsOf(c: Cluster, inputs: Inputs): seq<SecretRef> {
    FirstOfEach(Candidates(c.spec, MatchingClients(inputs.clients, c.name)))
  }

  method ListClients(items: seq<RadiusClient>, name: string) returns (out: seq<RadiusClient>)
    ensures out == MatchingClients(items, name)
  {
    out := [];
    for i := 0 to |items|
      invariant out == MatchingClients(items[..i], name)
    {
      assert items[..i + 1][..i] == items[..i];
      if items[i].clusterRef == name {
        out := out + [items[i]];
      }
    }
    assert items[..|items|] == items;
  }

  method ListPolicies(items: seq<RadiusPolicy>, name: string) returns (out: seq<PolicySpec>)
    ensures out == MatchingPolicies(items, name)
  {
    out := [];
    for i := 0 to |items|
      invariant out == MatchingPolicies(items[..i], name)
    {
      assert items[..i + 1][..i] == items[..i];
      if items[i].clusterRef == name {
        out := out + [items[i].spec];
      }
    }
    assert items[..|items|] == items;
  }

  method BuildRenderContext(c: Cluster, clients: seq<RadiusClient>, policies: seq<PolicySpec>) returns (ctx: Context)
    ensures ctx == RenderContext(c, clients, policies)
  {
    var specs: seq<ClientSpec> := [];
    for i := 0 to |clients|
      invariant specs == ClientSpecs(clients)[..i]
    {
      var cl := clients[i];
      specs := specs + [ClientSpec(cl.name, cl.ip, cl.secretRef, cl.nasType, cl.rawConfig)];
    }
    ctx := Context(c.spec.image, c.spec.replicas, c.spec.modules, false, 0, specs, policies);
    if c.spec.coa.Some? && c.spec.coa.value.enabled {
      ctx := ctx.(coaEnabled := true, coaPort := c.spec.coa.value.port);
      if ctx.coaPort == 0 {
        ctx := ctx.(coaPort := 3799);
      }
    }
  }

  // ---------------------------------------------------------------- what a reconcile reports

  function Done(cs: seq<Condition>, now: int): seq<Condition> {
    Set(Set(Set(cs, "Degraded", false, "AllSecretsPresent", now), "Available", true, "ReconcileComplete", now + 1),
        "Progressing", false, "ReconcileComplete", now + 2)
  }

  function Ending(cs: seq<Condition>, end: End, now: int): seq<Condition> {
    match end
    case MissingSecret => Set(cs, "Degraded", true, "MissingSecret", now)
    case InvalidSpec => Set(cs, "Degraded", true, "InvalidSpec", now)
    case Completed => Done(cs, now)
    case _ => cs
  }

  /** The conditions after a reconcile whose status writes all work: `now` is the time of the first. */
  function Reported(cs: seq<Condition>, end: End, now: int): seq<Condition> {
    if end.Gone? || end.Unread? then cs
    else Ending(Set(cs, "Progressing", true, "Reconciling", now), end, now + 1)
  }

  /** Everything that the steps need is there. */
  predicate Prepared(c: Cluster, inputs: Inputs) {
    && RenderCheck(ContextOf(c, inputs)).None?
    && forall r | r in RefsOf(c, inputs) :: r.name in inputs.secrets
  }

  /** Some Secret is missing, and all before it are there. */
  predicate FirstMissing(refs: seq<SecretRef>, secrets: set<string>) {
    exists k | 0 <= k < |refs| :: refs[k].name !in secrets && forall j | 0 <= j < k :: refs[j].name in secrets
  }

  predicate LacksSecret(c: Cluster, inputs: Inputs) {
    FirstMissing(RefsOf(c, inputs), inputs.secrets)
  }

  predicate HasInvalidSpec(c: Cluster, inputs: Inputs) {
    RenderCheck(ContextOf(c, inputs)).Some? && IsInvalid(RenderCheck(ContextOf(c, inputs)).value)
  }

  /** The steps of a reconcile on the objects of the cluster. */
  datatype Steps = Steps(start: World, ops: seq<Op>)

  /** What comes from outside: the text of radiusd.conf for a cluster's settings, and the digest. */
  datatype Outside = Outside(radiusd: ClusterSpec -> string, digest: string -> string)

  /** The files are a rendering of the context. */
  ghost predicate IsRendering(radiusd: string, ctx: Context, files: map<string, string>) {
    ModulesPass(ctx.modules) &&
    exists arr: Arrangement ::
      IsArrangement(arr, ctx.policies) && files == Files(radiusd, ctx, SitesText(arr, ctx.coaEnabled))
  }

  ghost function HashOf(c: Cluster, inputs: Inputs, outside: Outside, files: map<string, string>): string {
    outside.digest(ConfigStream(files, MatchingClients(inputs.clients, c.name)))
  }

  /** The operations of a pass: over the flattened rendering of what was read, with its hash. */
  ghost predicate IsPass(c: Cluster, inputs: Inputs, outside: Outside, ops: seq<Op>) {
    exists files, data ::
      && IsRendering(outside.radiusd(c.spec), ContextOf(c, inputs), files)
      && FlatData(files, data)
      && ops == PassOps(c, data, RefsOf(c, inputs), HashOf(c, inputs, outside, files))
  }

  lemma PassIs(c: Cluster, inputs: Inputs, outside: Outside, files: map<string, string>, data: map<string, string>)
    requires IsRendering(outside.radiusd(c.spec), ContextOf(c, inputs), files) && FlatData(files, data)
    ensures IsPass(c, inputs, outside, PassOps(c, data, RefsOf(c, inputs), HashOf(c, inputs, outside, files)))
  {
  }

  /** A reconcile that took no steps left the objects alone; one that did made a pass over them. */
  ghost predicate Took(c: Cluster, inputs: Inputs, outside: Outside, before: Store, after: Store, end: End,
      steps: Option<Steps>) {
    if BeforeSteps(end) then
      && steps.None? && after == before
      && (end.MissingSecret? ==> LacksSecret(c, inputs))
      && (end.InvalidSpec? ==> HasInvalidSpec(c, inputs))
    else
      && steps.Some? && Prepared(c, inputs) && IsPass(c, inputs, outside, steps.value.ops)
      && steps.value.start.objects == before
      && after == RunOps(steps.value.start, steps.value.ops).world.objects
      && (RunOps(steps.value.start, steps.value.ops).ok <==> !end.StepFailed?)
  }

  predicate HasOtherError(c: Cluster, inputs: Inputs) {
    RenderCheck(ContextOf(c, inputs)).Some? && !IsInvalid(RenderCheck(ContextOf(c, inputs)).value)
  }

  /** How a reconcile ends when every call works, exactly: it stops at a missing Secret, else at an
      invalid spec, else at another error of Render, and else takes its steps. */
  predicate Foreseen(c: Cluster, inputs: Inputs, end: End) {
    && (end.MissingSecret? <==> LacksSecret(c, inputs))
    && (end.InvalidSpec? <==> !LacksSecret(c, inputs) && HasInvalidSpec(c, inputs))
    && (end.RenderFailed? <==> !LacksSecret(c, inputs) && HasOtherError(c, inputs))
    && (end.StepFailed? || end.Completed? <==> Prepared(c, inputs))
    && !end.Gone? && !end.Unread? && !end.ReadFailed? && !end.LateReadFailed?
  }

  /** When all calls work, the end is the one that is foreseen, and the calls of the steps work too. */
  predicate Undisturbed(c: Cluster, inputs: Inputs, end: End, steps: Option<Steps>) {
    && Foreseen(c, inputs, end)
    && (steps.Some? <==> Prepared(c, inputs)) && (steps.Some? ==> steps.value.start.faults == [])
  }

  lemma OneOfFour(c: Cluster, inputs: Inputs)
    ensures Prepared(c, inputs) <==> !LacksSecret(c, inputs) && RenderCheck(ContextOf(c, inputs)).None?
  {
    var refs := RefsOf(c, inputs);
    if !LacksSecret(c, inputs) {
      forall r | r in refs
        ensures r.name in inputs.secrets
      {
        var k :| 0 <= k < |refs| && refs[k] == r;
        AllBefore(refs, inputs.secrets, k + 1);
      }
    }
  }

  lemma StepsForeseen(c: Cluster, inputs: Inputs, end: End)
    requires Prepared(c, inputs) && (end.StepFailed? || end.Completed?)
    ensures Foreseen(c, inputs, end)
  {
    OneOfFour(c, inputs);
  }

  /** If none is the first that is missing, none is missing. */
  lemma {:induction false} AllBefore(refs: seq<SecretRef>, secrets: set<string>, k: nat)
    requires !FirstMissing(refs, secrets) && k <= |refs|
    ensures forall j | 0 <= j < k :: refs[j].name in secrets
  {
    if k > 0 {
      AllBefore(refs, secrets, k - 1);
    }
  }

  /** What the k-th call from now on gets. */
  function Answer(faults: seq<Outcome>, k: nat): Outcome {
    if k < |faults| then faults[k] else Works
  }

  /** What is left of the outcomes after `i` calls. */
  function Later(faults: seq<Outcome>, i: nat): seq<Outcome> {
    if i <= |faults| then faults[i..] else []
  }

  lemma LaterIs(m: Store, faults: seq<Outcome>, i: nat)
    ensures Next(World(m, Later(faults, i))) == Answer(faults, i)
    ensures Rest(World(m, Later(faults, i))) == World(m, Later(faults, i + 1))
  {
  }

  /** The k-th Secret can be read and is there. */
  predicate Served(faults: seq<Outcome>, refs: seq<SecretRef>, secrets: set<string>, k: nat)
    requires k < |refs|
  {
    Answer(faults, k).Works? && refs[k].name in secrets
  }

  /** The first Secret from the i-th on that is not served, or the end. */
  function FirstUnserved(faults: seq<Outcome>, refs: seq<SecretRef>, secrets: set<string>, i: nat): (k: nat)
    requires i <= |refs|
    ensures i <= k <= |refs| && forall j | i <= j < k :: Served(faults, refs, secrets, j)
    ensures k < |refs| ==> !Served(faults, refs, secrets, k)
    decreases |refs| - i
  {
    if i == |refs| || !Served(faults, refs, secrets, i) then i else FirstUnserved(faults, refs, secrets, i + 1)
  }

  lemma UnservedMeans(faults: seq<Outcome>, refs: seq<SecretRef>, secrets: set<string>)
    ensures var k := FirstUnserved(faults, refs, secrets, 0);
            && (k == |refs| ==> forall r | r in refs :: r.name in secrets)
            && (k < |refs| && Answer(faults, k).Works? ==> FirstMissing(refs, secrets))
  {
    hide FirstUnserved, Answer;
    var k := FirstUnserved(faults, refs, secrets, 0);
    forall j | 0 <= j < k
      ensures refs[j].name in secrets
    {
      assert Served(faults, refs, secrets, j);
    }
  }

  class Reconcile {
    const api: ApiServer
    const server: Server
    const steps: Reconciler

    constructor (api: ApiServer, server: Server)
      ensures this.api == api && this.server == server && this.steps.api == api
    {
      this.api, this.server := api, server;
      steps := new Reconciler(api);
    }

    /** Reads every Secret that is referred to, up to the first that is missing or cannot be read. */
    method CheckSecrets(refs: seq<SecretRef>, secrets: set<string>) returns (end: Option<End>)
      modifies api`faults
      ensures var k := FirstUnserved(old(api.faults), refs, secrets, 0);
              end == if k == |refs| then None
                     else if Answer(old(api.faults), k).Works? then Some(MissingSecret) else Some(ReadFailed)
      ensures end.None? ==> forall r | r in refs :: r.name in secrets
      ensures end == Some(MissingSecret) ==> FirstMissing(refs, secrets)
      ensures end in {None, Some(MissingSecret), Some(ReadFailed)}
      ensures old(api.faults) == [] ==> api.faults == [] && end != Some(ReadFailed)
    {
      UnservedMeans(api.faults, refs, secrets);
      hide FirstMissing, Answer;
      for i := 0 to |refs|
        invariant api.faults == Later(old(api.faults), i)
        invariant FirstUnserved(old(api.faults), refs, secrets, 0) == FirstUnserved(old(api.faults), refs, secrets, i)
      {
        LaterIs(api.objects, old(api.faults), i);
        var outcome := api.Call();
        if !outcome.Works? {
          return Some(ReadFailed);
        }
        if refs[i].name !in secrets {
          return Some(MissingSecret);
        }
      }
      return None;
    }

    /** Everything between the first status write and the steps. */
    method Prepare(c: Cluster, inputs: Inputs, outside: Outside)
      returns (end: Option<End>, files: map<string, string>, refs: seq<SecretRef>, hash: string)
      modifies api`faults
      ensures end in {None, Some(MissingSecret), Some(ReadFailed), Some(InvalidSpec), Some(RenderFailed)}
      ensures end.None? ==>
                && refs == RefsOf(c, inputs) && Prepared(c, inputs)
                && IsRendering(outside.radiusd(c.spec), ContextOf(c, inputs), files)
                && hash == HashOf(c, inputs, outside, files)
      ensures end == Some(MissingSecret) ==> LacksSecret(c, inputs)
      ensures end == Some(InvalidSpec) ==> HasInvalidSpec(c, inputs)
      ensures old(api.faults) == [] ==>
                && api.faults == []
                && (end.None? <==> Prepared(c, inputs))
                && (end.Some? ==> Foreseen(c, inputs, end.value))
    {
      OneOfFour(c, inputs);
      files, refs, hash := map[], [], "";
      var outcome := api.Call();
      if !outcome.Works? {
        end := Some(ReadFailed);
        return;
      }
      var clients := ListClients(inputs.clients, c.name);
      outcome := api.Call();
      if !outcome.Works? {
        end := Some(ReadFailed);
        return;
      }
      var policies := ListPolicies(inputs.policies, c.name);
      refs := CollectSecretRefs(c.spec, clients);
      end := CheckSecrets(refs, inputs.secrets);
      if end.Some? {
        return;
      }
      var ctx := BuildRenderContext(c, clients, policies);
      var rendered := Render(outside.radiusd(c.spec), ctx);
      if rendered.Err? {
        end := Some(if IsInvalid(rendered.error) then InvalidSpec else RenderFailed);
        return;
      }
      files := rendered.value;
      hash := ComputeConfigHash(files, clients, outside.digest);
    }

    /** One reconcile. Its ghost result says which steps it took, and from which world. */
    method Run(inputs: Inputs, outside: Outside) returns (end: End, ghost steps: Option<Steps>)
      requires this.steps.api == api
      modifies api, server
      ensures end in {Gone, Unread, ReadFailed} ==> steps.None? && api.objects == old(api.objects)
      ensures inputs.cluster.None? || !inputs.found ==> end in {Gone, Unread, ReadFailed}
      ensures inputs.cluster.Some? ==>
              Took(inputs.cluster.value, inputs, outside, old(api.objects), api.objects, end, steps)
      ensures old(api.faults) == [] && inputs.found && inputs.cluster.Some? ==>
                Undisturbed(inputs.cluster.value, inputs, end, steps)
      ensures old(server.writes) == [] ==>
                server.writes == [] && server.stored == Reported(old(server.stored), end, old(server.clock))
    {
      steps := None;
      var early := Begin(inputs.found);
      if early.Some? {
        end := early.value;
        return;
      }
      var outcome := api.Call();
      if !outcome.Works? || inputs.cluster.None? {
        return ReadFailed, None;
      }
      end, steps := Proceed(inputs.cluster.value, inputs, outside);
    }

    /** Reads the cluster and says that work is in progress. */
    method Begin(exists_: bool) returns (early: Option<End>)
      modifies api`faults, server
      ensures early in {None, Some(Unread), Some(Gone)}
      ensures (early.None? ==> exists_) && (early == Some(Gone) ==> !exists_)
      ensures old(api.faults) == [] ==> api.faults == [] && (exists_ ==> early.None?)
      ensures old(server.writes) == [] ==>
                && server.writes == []
                && (early.Some? ==> server.stored == old(server.stored))
                && (early.None? ==>
                    server.stored == Set(old(server.stored), "Progressing", true, "Reconciling", old(server.clock)))
                && server.clock == old(server.clock) + if early.Some? then 0 else 1
    {
      var outcome := api.Call();
      if !outcome.Works? {
        return Some(Unread);
      }
      if !exists_ {
        return Some(Gone);
      }
      var copy := new Copy(server.stored);
      server.Report(copy, "Progressing", true, "Reconciling");
      return None;
    }

    method Proceed(c: Cluster, inputs: Inputs, outside: Outside) returns (end: End, ghost steps: Option<Steps>)
      requires this.steps.api == api
      modifies api, server
      ensures end !in {Gone, Unread} && Took(c, inputs, outside, old(api.objects), api.objects, end, steps)
      ensures old(api.faults) == [] ==> Undisturbed(c, inputs, end, steps)
      ensures old(server.writes) == [] ==>
                server.writes == [] && server.stored == Ending(old(server.stored), end, old(server.clock))
    {
      hide RenderCheck, FirstOfEach, PassOps, RunOps, Set, HasInvalidSpec, LacksSecret, IsRendering, HashOf, FlatData;
      hide Foreseen, Prepared;
      var copy := new Copy(server.stored);
      var early, files, refs, hash := Prepare(c, inputs, outside);
      if early.Some? {
        if early.value.MissingSecret? || early.value.InvalidSpec? {
          server.Report(copy, "Degraded", true, if early.value.MissingSecret? then "MissingSecret" else "InvalidSpec");
        }
        return early.value, None;
      }
      ghost var data, taken;
      end, taken, data := TakeSteps(c, files, refs, hash);
      steps := Some(taken);
      PassIs(c, inputs, outside, files, data);
      if !end.LateReadFailed? {
        StepsForeseen(c, inputs, end);
      }
    }

    method TakeSteps(c: Cluster, files: map<string, string>, refs: seq<SecretRef>, hash: string)
      returns (end: End, ghost taken: Steps, ghost data: map<string, string>)
      requires this.steps.api == api
      modifies api, server
      ensures !BeforeSteps(end) && FlatData(files, data)
      ensures taken == Steps(old(api.Now()), PassOps(c, data, refs, hash))
      ensures api.objects == RunOps(taken.start, taken.ops).world.objects
      ensures RunOps(taken.start, taken.ops).ok <==> !end.StepFailed?
      ensures old(api.faults) == [] ==> !end.LateReadFailed?
      ensures old(server.writes) == [] ==>
                server.writes == [] && server.stored == Ending(old(server.stored), end, old(server.clock))
    {
      ghost var start := api.Now();
      var ok;
      ok, data := this.steps.ReconcileResources(c, files, refs, hash);
      ghost var ops := PassOps(c, data, refs, hash);
      taken := Steps(start, ops);
      if start.faults == [] {
        WorkingPass(start.objects, ops);
      }
      if !ok {
        return StepFailed, taken, data;
      }
      end := Finish(c);
    }

    /** After the steps: numeric status fields, if the Deployment can be read, and the last conditions. */
    method Finish(c: Cluster) returns (end: End)
      modifies api`faults, server
      ensures end in {LateReadFailed, Completed}
      ensures old(api.faults) == [] ==> end.Completed?
      ensures old(server.writes) == [] ==>
                server.writes == [] && server.stored == Ending(old(server.stored), end, old(server.clock))
    {
      var deployment := api.Get(KeyOf(c, Deployment, SUFFIX));
      var outcome;
      if deployment.Object? {
        outcome := api.Call();
        if !outcome.Works? {
          return LateReadFailed;
        }
        var fields := new Copy(server.stored);
        outcome := api.Call();
        server.Update(fields);
      }
      outcome := api.Call();
      if !outcome.Works? {
        return LateReadFailed;
      }
      ReportDone();
      return Completed;
    }

    method ReportDone()
      modifies server
      ensures old(server.writes) == [] ==>
              server.writes == [] && server.stored == Done(old(server.stored), old(server.clock))
    {
      var copy := new Copy(server.stored);
      var now := server.Tick();
      copy.SetCondition("Degraded", false, "AllSecretsPresent", now);
      now := server.Tick();
      copy.SetCondition("Available", true, "ReconcileComplete", now);
      now := server.Tick();
      copy.SetCondition("Progressing", false, "ReconcileComplete", now);
      server.Update(copy);
    }
  }

  // ---------------------------------------------------------------- over any number of reconciles

  /** What the manager does with a cluster: one reconcile after the other, each on what it then reads
      and with calls that fail in their own way. With working status writes the conditions are the
      History of the ends. */
  method ReconcileAll(r: Reconcile, turns: seq<(Inputs, seq<Outcome>)>, outside: Outside)
      returns (ends: seq<(End, int)>)
    requires r.steps.api == r.api && r.server.writes == []
    modifies r.api, r.server
    ensures |ends| == |turns| && r.server.stored == History(old(r.server.stored), ends)
    ensures forall i | 0 <= i < |turns| && Calm(turns[i]) :: Foreseen(turns[i].0.cluster.value, turns[i].0, ends[i].0)
    ensures Unique(old(r.server.stored)) && LastReal(ends).Some? ==>
              Unique(r.server.stored) && Tells(r.server.stored, LastReal(ends).value)
    ensures Unique(old(r.server.stored)) && turns != [] && Calm(turns[|turns| - 1]) ==>
              Diagnosed(r.server.stored, turns[|turns| - 1].0.cluster.value, turns[|turns| - 1].0)
  {
    hide Foreseen, Took, Prepared, Diagnosed, Tells, LastReal, Unique;
    ends := [];
    for i := 0 to |turns|
      invariant r.server.writes == [] && |ends| == i && r.server.stored == History(old(r.server.stored), ends)
      invariant forall k | 0 <= k < i && Calm(turns[k]) :: Foreseen(turns[k].0.cluster.value, turns[k].0, ends[k].0)
    {
      r.api.faults := turns[i].1;
      var now := r.server.clock;
      var end;
      ghost var steps;
      end, steps := r.Run(turns[i].0, outside);
      assert (ends + [(end, now)])[..i] == ends;
      ends := ends + [(end, now)];
    }
    if turns != [] && Calm(turns[|turns| - 1]) {
      LastIsReal(turns[|turns| - 1].0.cluster.value, turns[|turns| - 1].0, ends);
    }
    if Unique(old(r.server.stored)) && LastReal(ends).Some? {
      AtRest(old(r.server.stored), ends);
    }
  }

  /** A reconcile that finds its cluster, and all of whose calls work. */
  predicate Calm(turn: (Inputs, seq<Outcome>)) {
    turn.1 == [] && turn.0.found && turn.0.cluster.Some?
  }

  /** The condition is there, with this value and this reason. */
  predicate Told(cs: seq<Condition>, kind: string, value: bool, reason: string) {
    Find(cs, kind).Some? && Find(cs, kind).value.holds == value && Find(cs, kind).value.reason == reason
  }

  /** What the conditions say about how the last reconcile ended. */
  predicate Tells(cs: seq<Condition>, last: End) {
    && (if last.Completed? then Told(cs, "Progressing", false, "ReconcileComplete")
        else Told(cs, "Progressing", true, "Reconciling"))
    && (last.Completed? ==>
          Told(cs, "Available", true, "ReconcileComplete") && Told(cs, "Degraded", false, "AllSecretsPresent"))
    && (last.MissingSecret? ==> Told(cs, "Degraded", true, "MissingSecret"))
    && (last.InvalidSpec? ==> Told(cs, "Degraded", true, "InvalidSpec"))
  }

  /** The conditions say what is wrong with the cluster. */
  predicate Diagnosed(cs: seq<Condition>, c: Cluster, inputs: Inputs) {
    && (LacksSecret(c, inputs) ==> Told(cs, "Degraded", true, "MissingSecret"))
    && (!LacksSecret(c, inputs) && HasInvalidSpec(c, inputs) ==> Told(cs, "Degraded", true, "InvalidSpec"))
    && (!Prepared(c, inputs) ==> Told(cs, "Progressing", true, "Reconciling"))
  }

  lemma LastIsReal(c: Cluster, inputs: Inputs, ends: seq<(End, int)>)
    requires ends != [] && Foreseen(c, inputs, ends[|ends| - 1].0)
    ensures LastReal(ends) == Some(ends[|ends| - 1].0)
    ensures forall cs | Tells(cs, ends[|ends| - 1].0) :: Diagnosed(cs, c, inputs)
  {
    hide LacksSecret, HasInvalidSpec, HasOtherError, Prepared;
  }

  /** Reconciles one after the other, each with the time of its first write. */
  function History(cs: seq<Condition>, ends: seq<(End, int)>): seq<Condition> {
    if ends == [] then cs
    else Reported(History(cs, ends[..|ends| - 1]), ends[|ends| - 1].0, ends[|ends| - 1].1)
  }

  /** The last reconcile that found and read its cluster. */
  function LastReal(ends: seq<(End, int)>): Option<End> {
    if ends == [] then None
    else
      var last := ends[|ends| - 1].0;
      if last.Gone? || last.Unread? then LastReal(ends[..|ends| - 1]) else Some(last)
  }

  lemma DoneFinds(cs: seq<Condition>, now: int)
    ensures Tells(Done(cs, now), Completed)
  {
    var sound := Set(cs, "Degraded", false, "AllSecretsPresent", now);
    var available := Set(sound, "Available", true, "ReconcileComplete", now + 1);
    SetFinds(cs, "Degraded", false, "AllSecretsPresent", now);
    SetFinds(sound, "Available", true, "ReconcileComplete", now + 1);
    SetFinds(available, "Progressing", false, "ReconcileComplete", now + 2);
  }

  lemma DegradedFinds(cs: seq<Condition>, reason: string, now: int)
    ensures Told(Set(cs, "Degraded", true, reason, now), "Degraded", true, reason)
    ensures Find(Set(cs, "Degraded", true, reason, now), "Progressing") == Find(cs, "Progressing")
    ensures Find(Set(cs, "Degraded", true, reason, now), "Available") == Find(cs, "Available")
  {
    SetFinds(cs, "Degraded", true, reason, now);
  }

  lemma EndingFinds(cs: seq<Condition>, end: End, now: int)
    requires Told(cs, "Progressing", true, "Reconciling")
    ensures Tells(Ending(cs, end, now), end)
    ensures !end.Completed? ==> Find(Ending(cs, end, now), "Available") == Find(cs, "Available")
  {
    if end.Completed? {
      DoneFinds(cs, now);
    }
    DegradedFinds(cs, "MissingSecret", now);
    DegradedFinds(cs, "InvalidSpec", now);
  }

  lemma ReportedFinds(cs: seq<Condition>, end: End, now: int)
    requires !end.Gone? && !end.Unread?
    ensures Tells(Reported(cs, end, now), end)
    ensures !end.Completed? ==> Find(Reported(cs, end, now), "Available") == Find(cs, "Available")
  {
    var started := Set(cs, "Progressing", true, "Reconciling", now);
    SetFinds(cs, "Progressing", true, "Reconciling", now);
    EndingFinds(started, end, now + 1);
  }

  lemma ReportedUnique(cs: seq<Condition>, end: End, now: int)
    requires Unique(cs)
    ensures Unique(Reported(cs, end, now))
  {
    var started := Set(cs, "Progressing", true, "Reconciling", now);
    SetUnique(cs, "Progressing", true, "Reconciling", now);
    SetUnique(started, "Degraded", true, "MissingSecret", now + 1);
    SetUnique(started, "Degraded", true, "InvalidSpec", now + 1);
    var sound := Set(started, "Degraded", false, "AllSecretsPresent", now + 1);
    var available := Set(sound, "Available", true, "ReconcileComplete", now + 2);
    SetUnique(started, "Degraded", false, "AllSecretsPresent", now + 1);
    SetUnique(sound, "Available", true, "ReconcileComplete", now + 2);
    SetUnique(available, "Progressing", false, "ReconcileComplete", now + 3);
  }

  /** At rest, after any history with working status writes: Progressing is False exactly when the last
      reconcile that read its cluster completed, and then Available is True and Degraded is False;
      if it stopped at a missing Secret or an invalid spec, Degraded is True; each with its reason. */
  lemma {:induction false} AtRest(cs: seq<Condition>, ends: seq<(End, int)>)
    requires Unique(cs) && LastReal(ends).Some?
    ensures Unique(History(cs, ends)) && Tells(History(cs, ends), LastReal(ends).value)
  {
    var n := |ends| - 1;
    if LastReal(ends[..n]).Some? {
      AtRest(cs, ends[..n]);
    } else {
      NothingReported(cs, ends[..n]);
    }
    ReportedUnique(History(cs, ends[..n]), ends[n].0, ends[n].1);
    if !ends[n].0.Gone? && !ends[n].0.Unread? {
      ReportedFinds(History(cs, ends[..n]), ends[n].0, ends[n].1);
    }
  }

  lemma {:induction false} NothingReported(cs: seq<Condition>, ends: seq<(End, int)>)
    requires LastReal(ends).None?
    ensures History(cs, ends) == cs
  {
    if ends != [] {
      NothingReported(cs, ends[..|ends| - 1]);
    }
  }

  /** A cluster that has once completed stays Available: no later failure takes that back. */
  lemma {:induction false} AvailableStays(cs: seq<Condition>, ends: seq<(End, int)>)
    requires Holds(cs, "Available", true)
    ensures Holds(History(cs, ends), "Available", true)
  {
    if ends != [] {
      var n := |ends| - 1;
      AvailableStays(cs, ends[..n]);
      if !ends[n].0.Gone? && !ends[n].0.Unread? {
        ReportedFinds(History(cs, ends[..n]), ends[n].0, ends[n].1);
      }
    }
  }
}
