/** A cluster and the operations that a pass makes for it, in order
    (internal/controller/radiuscluster_controller.go). */
module Clusters {
  import opened Wrappers
  import opened Specs
  import opened Objects
  import opened ApiServers

  // ---------------------------------------------------------------- the spec of a cluster

  datatype Autoscaling = Autoscaling(enabled: bool, minReplicas: int, maxReplicas: int, cpu: int)

  datatype ServiceConfig = ServiceConfig(
    serviceType: string, loadBalancerIP: string, trafficPolicy: string, annotations: map<string, string>)

  datatype EndpointSpec = EndpointSpec(replicas: int, autoscaling: Option<Autoscaling>, service: ServiceConfig)

  datatype Services = Services(auth: Option<EndpointSpec>, accounting: Option<EndpointSpec>, coa: Option<EndpointSpec>)

  datatype CoA = CoA(enabled: bool, port: int)

  datatype Budget = Budget(minAvailable: Option<string>, maxUnavailable: Option<string>)

  datatype TLS = TLS(enabled: bool, secretRef: SecretRef)

  datatype ClusterSpec = ClusterSpec(
    image: string, replicas: int, autoscaling: Option<Autoscaling>, service: Option<ServiceConfig>,
    services: Option<Services>, coa: Option<CoA>, budget: Option<Budget>, tls: Option<TLS>, modules: seq<ModuleConfig>)

  datatype Cluster = Cluster(namespace: string, name: string, spec: ClusterSpec)

  // ---------------------------------------------------------------- names and labels

  const SUFFIX: string := "-freeradius"
  const AUTH_SUFFIX: string := "-freeradius-auth"
  const ACCT_SUFFIX: string := "-freeradius-acct"
  const COA_SUFFIX: string := "-freeradius-coa"
  const CONFIG_SUFFIX: string := "-freeradius-config"
  const READER_SUFFIX: string := "-freeradius-client-reader"

  function KeyOf(c: Cluster, kind: Kind, suffix: string): Key {
    Key(kind, c.namespace, c.name + suffix)
  }

  const NAME_LABEL: string := "app.kubernetes.io/name"
  const INSTANCE_LABEL: string := "app.kubernetes.io/instance"
  const MANAGER_LABEL: string := "app.kubernetes.io/managed-by"
  const ROLE_LABEL: string := "radius.operator.io/role"

  function PodLabels(name: string): Labels {
    map[NAME_LABEL := "freeradius", INSTANCE_LABEL := name, MANAGER_LABEL := "freeradius-operator"]
  }

  function EndpointLabels(name: string, role: string): Labels {
    if role != "" then PodLabels(name)[ROLE_LABEL := role] else PodLabels(name)
  }

  // ---------------------------------------------------------------- endpoints

  datatype Endpoint = Endpoint(
    role: string, suffix: string, ports: seq<Port>, replicas: int,
    autoscaling: Option<Autoscaling>, service: Option<ServiceConfig>)

  function CoAPort(spec: ClusterSpec): int {
    if spec.coa.Some? && spec.coa.value.port > 0 then spec.coa.value.port else 3799
  }

  function UnifiedPorts(spec: ClusterSpec): seq<Port> {
    [Port("auth", 1812), Port("acct", 1813)] +
    (if spec.coa.Some? && spec.coa.value.enabled then [Port("coa", CoAPort(spec))] else [])
  }

  function RoleEndpoint(e: Option<EndpointSpec>, role: string, suffix: string, port: int): seq<Endpoint> {
    if e.None? then []
    else [Endpoint(role, suffix, [Port(role, port)], e.value.replicas, e.value.autoscaling, Some(e.value.service))]
  }

  /** One endpoint with every port, or one for each role that is configured. */
  function Endpoints(spec: ClusterSpec): seq<Endpoint> {
    if spec.services.None? then
      [Endpoint("", SUFFIX, UnifiedPorts(spec), spec.replicas, spec.autoscaling, spec.service)]
    else
      RoleEndpoint(spec.services.value.auth, "auth", AUTH_SUFFIX, 1812) +
      RoleEndpoint(spec.services.value.accounting, "acct", ACCT_SUFFIX, 1813) +
      RoleEndpoint(spec.services.value.coa, "coa", COA_SUFFIX, CoAPort(spec))
  }

  /** The suffixes of the mode that the cluster is not in. */
  function StaleSuffixes(spec: ClusterSpec): seq<string> {
    if spec.services.Some? then [SUFFIX] else [AUTH_SUFFIX, ACCT_SUFFIX, COA_SUFFIX]
  }

  predicate Scaled(ep: Endpoint) {
    ep.autoscaling.Some? && ep.autoscaling.value.enabled
  }

  // ---------------------------------------------------------------- pods

  const CONFIG_VOLUME: string := "freeradius-config"
  const RENDERED_VOLUME: string := "freeradius-config-rendered"

  function SecretDirectory(name: string): string {
    "/etc/freeradius" + ("/secrets/" + name)
  }

  function SecretVolumes(refs: seq<SecretRef>): seq<Volume> {
    if refs == [] then []
    else SecretVolumes(refs[..|refs| - 1]) + [SecretVolume("secret-" + refs[|refs| - 1].name, refs[|refs| - 1].name)]
  }

  function SecretMounts(refs: seq<SecretRef>): seq<Mount> {
    if refs == [] then []
    else SecretMounts(refs[..|refs| - 1]) +
         [Mount("secret-" + refs[|refs| - 1].name, SecretDirectory(refs[|refs| - 1].name))]
  }

  function PodOf(c: Cluster, refs: seq<SecretRef>, ports: seq<Port>): PodSpec {
    PodSpec(
      c.spec.image, c.name + SUFFIX, ports,
      [ConfigMapVolume(CONFIG_VOLUME, c.name + CONFIG_SUFFIX), EmptyVolume(RENDERED_VOLUME)] + SecretVolumes(refs),
      [Mount(CONFIG_VOLUME, "/config-flat"), Mount(RENDERED_VOLUME, "/etc/freeradius")] + SecretMounts(refs),
      [Mount(RENDERED_VOLUME, "/etc/freeradius")] + SecretMounts(refs),
      [Mount(RENDERED_VOLUME, "/etc/freeradius")] + SecretMounts(refs))
  }

  // ---------------------------------------------------------------- the operations of a pass

  function AccountOp(c: Cluster): Op {
    Apply(KeyOf(c, ServiceAccount, SUFFIX), c.name, AccountBody, None)
  }

  function RoleOp(c: Cluster): Op {
    Apply(KeyOf(c, Role, READER_SUFFIX), c.name, RoleBody, None)
  }

  function RoleBindingOp(c: Cluster): Op {
    Apply(KeyOf(c, RoleBinding, READER_SUFFIX), c.name, RoleBindingBody(c.name + READER_SUFFIX, c.name + SUFFIX), None)
  }

  function ConfigMapOp(c: Cluster, data: map<string, string>): Op {
    Apply(KeyOf(c, ConfigMap, CONFIG_SUFFIX), c.name, ConfigMapBody(data), None)
  }

  function Replicas(ep: Endpoint): Option<int> {
    if Scaled(ep) then None else if ep.replicas < 1 then Some(1) else Some(ep.replicas)
  }

  function DeploymentOp(c: Cluster, refs: seq<SecretRef>, hash: string, ep: Endpoint): Op {
    var labels := EndpointLabels(c.name, ep.role);
    Apply(KeyOf(c, Deployment, ep.suffix), c.name,
          DeploymentBody(labels, labels, hash, PodOf(c, refs, ep.ports), Replicas(ep)), None)
  }

  function ServiceOp(c: Cluster, ep: Endpoint): Op {
    var config := if ep.service.Some? then ep.service.value else ServiceConfig("", "", "", map[]);
    Apply(KeyOf(c, Service, ep.suffix), c.name,
          ServiceBody(if config.serviceType != "" then config.serviceType else "ClusterIP",
                      EndpointLabels(c.name, ep.role), ep.ports, config.loadBalancerIP, config.trafficPolicy),
          if config.annotations != map[] then Some(config.annotations) else None)
  }

  function AutoscalerOp(c: Cluster, ep: Endpoint): Op {
    if Scaled(ep) then
      var a := ep.autoscaling.value;
      Apply(KeyOf(c, Autoscaler, ep.suffix), c.name,
            AutoscalerBody(c.name + ep.suffix, a.minReplicas, a.maxReplicas, a.cpu), None)
    else Remove(KeyOf(c, Autoscaler, ep.suffix))
  }

  function BudgetOp(c: Cluster): Op {
    if c.spec.budget.None? && c.spec.replicas <= 1 then Remove(KeyOf(c, DisruptionBudget, SUFFIX))
    else
      var budget := if c.spec.budget.Some? then c.spec.budget.value else Budget(Some("1"), None);
      Apply(KeyOf(c, DisruptionBudget, SUFFIX), c.name,
            BudgetBody(PodLabels(c.name), budget.minAvailable, budget.maxUnavailable), None)
  }

  function EndpointOps(c: Cluster, refs: seq<SecretRef>, hash: string, eps: seq<Endpoint>): seq<Op>
    decreases |eps|
  {
    if eps == [] then []
    else [DeploymentOp(c, refs, hash, eps[0]), ServiceOp(c, eps[0])] + EndpointOps(c, refs, hash, eps[1..])
  }

  function StaleOps(c: Cluster, suffixes: seq<string>): seq<Op>
    decreases |suffixes|
  {
    if suffixes == [] then []
    else [Remove(KeyOf(c, Deployment, suffixes[0])), Remove(KeyOf(c, Service, suffixes[0]))] +
         StaleOps(c, suffixes[1..])
  }

  function AutoscalerOps(c: Cluster, eps: seq<Endpoint>): seq<Op>
    decreases |eps|
  {
    if eps == [] then [] else [AutoscalerOp(c, eps[0])] + AutoscalerOps(c, eps[1..])
  }

  function RBACOps(c: Cluster): seq<Op> {
    [AccountOp(c), RoleOp(c), RoleBindingOp(c)]
  }

  function WorkloadOps(c: Cluster, refs: seq<SecretRef>, hash: string): seq<Op> {
    EndpointOps(c, refs, hash, Endpoints(c.spec)) + StaleOps(c, StaleSuffixes(c.spec))
  }

  function PassOps(c: Cluster, data: map<string, string>, refs: seq<SecretRef>, hash: string): seq<Op> {
    RBACOps(c) +
      ([ConfigMapOp(c, data)] + (WorkloadOps(c, refs, hash) + (AutoscalerOps(c, Endpoints(c.spec)) + [BudgetOp(c)])))
  }
}
