/** The declarative specs that the operator compiles (api/v1alpha1, internal/renderer/renderer.go). */
module Specs {
  import opened Wrappers

  datatype SecretRef = SecretRef(name: string, key: string)

  datatype MatchLeaf = MatchLeaf(attribute: string, operator: string, value: string)

  datatype PolicyMatch = PolicyMatch(all: seq<MatchLeaf>, any: seq<MatchLeaf>, none: seq<MatchLeaf>)

  datatype PolicyAction = PolicyAction(
    kind: string, moduleName: string, modules: seq<string>, attribute: string, value: string)

  datatype PolicySpec = PolicySpec(
    name: string, stage: string, priority: int, match_: Option<PolicyMatch>,
    actions: seq<PolicyAction>, rawConfig: string)

  datatype ClientSpec = ClientSpec(name: string, ip: string, secretRef: SecretRef, nasType: string, rawConfig: string)

  // The configurations of modules.

  datatype SQLConfig = SQLConfig(
    dialect: string, server: string, port: int, database: string, login: string, password: SecretRef)

  datatype LDAPConfig = LDAPConfig(server: string, port: int, baseDN: string, identity: string, password: SecretRef)

  datatype EAPTLS = EAPTLS(certFile: string, keyFile: string)

  datatype EAPTunnel = EAPTunnel(defaultEAPType: string, virtualServer: string)

  datatype EAPConfig = EAPConfig(
    defaultEAPType: string, tls: Option<EAPTLS>, ttls: Option<EAPTunnel>, peap: Option<EAPTunnel>)

  datatype RESTStage = RESTStage(uri: string, verb: string)

  datatype RESTConfig = RESTConfig(
    connectURI: string, auth: string, password: Option<SecretRef>,
    authorize: Option<RESTStage>, authenticate: Option<RESTStage>, preacct: Option<RESTStage>,
    accounting: Option<RESTStage>, postAuth: Option<RESTStage>, preProxy: Option<RESTStage>,
      postProxy: Option<RESTStage>)

  datatype RedisConfig = RedisConfig(server: string, port: int, password: Option<SecretRef>)

  datatype FilesConfig = FilesConfig(key: string, authorize: string, accounting: string)

  datatype ModuleConfig = ModuleConfig(
    name: string, moduleType: string, enabled: bool,
    sql: Option<SQLConfig>, ldap: Option<LDAPConfig>, eap: Option<EAPConfig>,
    rest: Option<RESTConfig>, redis: Option<RedisConfig>, files: Option<FilesConfig>, rawConfig: string)
}
