/** The objects that a pass owns, reduced to the fields that it sets. */
module Objects {
  import opened Wrappers

  datatype Kind = ServiceAccount | Role | RoleBinding | ConfigMap | Deployment | Service | Autoscaler | DisruptionBudget

  datatype Key = Key(kind: Kind, namespace: string, name: string)

  type Labels = map<string, string>

  datatype Port = Port(name: string, number: int)

  datatype Volume =
    | ConfigMapVolume(name: string, configMap: string)
    | EmptyVolume(name: string)
    | SecretVolume(name: string, secret: string)

  datatype Mount = Mount(volume: string, path: string)

  datatype PodSpec = PodSpec(
    image: string, account: string, ports: seq<Port>, volumes: seq<Volume>,
    configInit: seq<Mount>, renderClients: seq<Mount>, main: seq<Mount>)

  datatype Body =
    | AccountBody
    | RoleBody
    | RoleBindingBody(role: string, account: string)
    | ConfigMapBody(data: map<string, string>)
    | DeploymentBody(selector: Labels, labels: Labels, configHash: string, pod: PodSpec, replicas: Option<int>)
    | ServiceBody(serviceType: string, selector: Labels, ports: seq<Port>, loadBalancerIP: string,
                  trafficPolicy: string)
    | AutoscalerBody(target: string, minReplicas: int, maxReplicas: int, cpu: int)
    | BudgetBody(selector: Labels, minAvailable: Option<string>, maxUnavailable: Option<string>)

  datatype Stored = Stored(owner: Option<string>, annotations: map<string, string>, body: Body)

  type Store = map<Key, Stored>
}
