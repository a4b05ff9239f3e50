/** What the templates of modules print (internal/renderer/templates/mods-enabled), cut at the
    references to secrets. */
module ModuleTexts {
  import opened Wrappers
  import opened Specs
  import opened FileRefs
  import opened Sites
  import opened Clients

  /** The configuration that the template of the module's type reads is there. */
  predicate ConfigPresent(m: ModuleConfig) {
    && (m.moduleType == "rlm_sql" ==> m.sql.Some?) && (m.moduleType == "rlm_ldap" ==> m.ldap.Some?)
    && (m.moduleType == "rlm_eap" ==> m.eap.Some?) && (m.moduleType == "rlm_rest" ==> m.rest.Some?)
    && (m.moduleType == "rlm_redis" ==> m.redis.Some?) && (m.moduleType == "rlm_files" ==> m.files.Some?)
  }

  function Opening(kind: string, name: string): string {
    kind + (" " + (name + " {\n"))
  }

  function InDouble(v: string): string {
    "\"" + (v + "\"")
  }

  function InSingle(v: string): string {
    "'" + (v + "'")
  }

  /** A field of a nested block. */
  function InnerField(key: string, value: string): string {
    EIGHT + (key + (" = " + (value + "\n")))
  }

  function InnerBlock(name: string, body: string): string {
    FOUR + (name + (" {\n" + (body + (FOUR + "}\n"))))
  }

  function SQLPieces(name: string, c: SQLConfig): seq<Piece> {
    [Lit(Opening("sql", name) + (FieldText("driver", InDouble("rlm_sql_" + c.dialect)) +
         (FieldText("dialect", InDouble(c.dialect)) + (FieldText("server", InDouble(c.server)) +
         (FieldText("port", Decimal(c.port)) + (FieldText("database", InDouble(c.database)) +
         (FieldText("login", InDouble(c.login)) + (FOUR + "password = \"")))))))),
     Ref(SecretPath(c.password)),
     Lit("\"\n}\n")]
  }

  function LDAPPieces(name: string, c: LDAPConfig): seq<Piece> {
    [Lit(Opening("ldap", name) + (FieldText("server", InSingle(c.server)) + (FieldText("port", Decimal(c.port)) +
         (FieldText("base_dn", InSingle(c.baseDN)) + (FieldText("identity", InSingle(c.identity)) +
         (FOUR + "password = ")))))),
     Ref(SecretPath(c.password)),
     Lit("\n}\n")]
  }

  function RedisPieces(name: string, c: RedisConfig): seq<Piece> {
    var head := Opening("redis", name) + (FieldText("server", c.server) + FieldText("port", Decimal(c.port)));
    if c.password.Some? then
      [Lit(head + (FOUR + "password = ")), Ref(SecretPath(c.password.value)), Lit("\n}\n")]
    else [Lit(head + "}\n")]
  }

  function StageText(name: string, s: Option<RESTStage>): string {
    if s.None? then ""
    else InnerBlock(name, InnerField("uri", InDouble(s.value.uri)) + InnerField("method", InDouble(s.value.verb)))
  }

  function RESTStages(c: RESTConfig): string {
    StageText("authorize", c.authorize) + (StageText("authenticate", c.authenticate) +
    (StageText("preacct", c.preacct) + (StageText("accounting", c.accounting) +
    (StageText("post-auth", c.postAuth) + (StageText("pre-proxy", c.preProxy) +
    (StageText("post-proxy", c.postProxy) + "}\n"))))))
  }

  function RESTHead(name: string, c: RESTConfig): string {
    Opening("rest", name) + (FieldText("connect_uri", InDouble(c.connectURI)) +
                             if c.auth != "" then FieldText("auth", c.auth) else "")
  }

  function RESTPieces(name: string, c: RESTConfig): seq<Piece> {
    if c.password.Some? then
      [Lit(RESTHead(name, c) + (FOUR + "password = \"")), Ref(SecretPath(c.password.value)),
       Lit("\"\n" + RESTStages(c))]
    else [Lit(RESTHead(name, c) + RESTStages(c))]
  }

  function TunnelText(name: string, t: Option<EAPTunnel>): string {
    if t.None? then ""
    else
      InnerBlock(name, InnerField("default_eap_type", t.value.defaultEAPType) +
                       if t.value.virtualServer != "" then InnerField("virtual_server", t.value.virtualServer) else "")
  }

  function TLSText(t: Option<EAPTLS>): string {
    if t.None? then ""
      else InnerBlock("tls", InnerField("certfile", t.value.certFile) + InnerField("keyfile", t.value.keyFile))
  }

  function EAPText(name: string, c: EAPConfig): string {
    Opening("eap", name) + (FieldText("default_eap_type", c.defaultEAPType) +
    (TLSText(c.tls) + (TunnelText("ttls", c.ttls) + (TunnelText("peap", c.peap) + "}\n"))))
  }

  function FilesText(name: string, c: FilesConfig): string {
    Opening("files", name) + (FieldText("moddir", "${modconfdir}/" + "${.:instance}") +
    ((if c.key != "" then FieldText("key", InDouble(c.key)) else "") +
     (FieldText("filename", "${moddir}/authorize") + (FieldText("acctusersfile", "${moddir}/accounting") + "}\n"))))
  }

  /** A template reads the configuration of its type: printing one without it would dereference nil. */
  function ModulePieces(m: ModuleConfig): seq<Piece>
    requires ConfigPresent(m)
  {
    match m.moduleType
    case "rlm_sql" => SQLPieces(m.name, m.sql.value)
    case "rlm_ldap" => LDAPPieces(m.name, m.ldap.value)
    case "rlm_eap" => [Lit(EAPText(m.name, m.eap.value))]
    case "rlm_rest" => RESTPieces(m.name, m.rest.value)
    case "rlm_redis" => RedisPieces(m.name, m.redis.value)
    case "rlm_files" => [Lit(FilesText(m.name, m.files.value))]
    case _ => []
  }
}
