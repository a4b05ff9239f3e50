/** Render: from a context to the configuration files (internal/renderer/renderer.go, modules.go). */
module Rendering {
  import opened Wrappers
  import opened Specs
  import opened Sanitize
  import opened Clients
  import opened Sites
  import opened FileRefs
  import opened ModuleTexts

  datatype Context = Context(
    image: string, replicas: int, modules: seq<ModuleConfig>, coaEnabled: bool, coaPort: int,
    clients: seq<ClientSpec>, policies: seq<PolicySpec>)

  datatype RenderError =
    | BadClient(client: string)
    | BadModule(mod: string)
    | BadPolicy(policy: string)
    | UnknownModuleType(moduleType: string)
    | MissingConfig(mod: string)
    | BadSite(error: SiteError)

  /** isInvalidError: the errors that the controller reports as an invalid spec. */
  predicate IsInvalid(e: RenderError) {
    e.UnknownModuleType? || e.BadSite?
  }

  // ---------------------------------------------------------------- modules

  const TEMPLATED_TYPES: seq<string> := ["rlm_sql", "rlm_ldap", "rlm_eap", "rlm_rest", "rlm_redis", "rlm_files"]

  const PLAIN_TYPES: seq<string> := [
    "rlm_pap", "rlm_chap", "rlm_mschap", "rlm_unix", "rlm_pam", "rlm_python",
    "rlm_perl", "rlm_cache", "rlm_attr_filter", "rlm_expr", "rlm_detail", "rlm_linelog"]

  predicate KnownType(t: string) {
    t in TEMPLATED_TYPES || t in PLAIN_TYPES
  }

  /** validateModuleConfig: a configuration that is absent passes. */
  predicate ValidModule(m: ModuleConfig) {
    m.rawConfig == "" ==>
      && ValidIdentifier(m.name)
      && (m.moduleType == "rlm_sql" && m.sql.Some? ==> ValidSQL(m.sql.value))
      && (m.moduleType == "rlm_ldap" && m.ldap.Some? ==> ValidLDAP(m.ldap.value))
      && (m.moduleType == "rlm_eap" && m.eap.Some? ==> ValidEAP(m.eap.value))
      && (m.moduleType == "rlm_rest" && m.rest.Some? ==> ValidREST(m.rest.value))
      && (m.moduleType == "rlm_redis" && m.redis.Some? ==> ValidRedis(m.redis.value))
      && (m.moduleType == "rlm_files" && m.files.Some? ==> ValidFiles(m.files.value))
  }

  function ModuleCheck(m: ModuleConfig): Option<RenderError> {
    if !m.enabled || m.rawConfig != "" then None
    else if !KnownType(m.moduleType) then Some(UnknownModuleType(m.moduleType))
    else if !ConfigPresent(m) then Some(MissingConfig(m.name))
    else None
  }

  /** strings.TrimPrefix(t, "rlm_"). */
  function ShortName(t: string): string {
    if "rlm_" <= t then t[4..] else t
  }

  function ModuleText(m: ModuleConfig): string
    requires ModuleCheck(m).None? && m.enabled
  {
    if m.rawConfig != "" then m.rawConfig
    else if m.moduleType in TEMPLATED_TYPES then TextOf(ModulePieces(m))
    else ShortName(m.moduleType) + (" " + (m.name + " {\n}\n"))
  }

  function EnabledPath(name: string): string {
    "mods-enabled/" + name
  }

  function DataPath(name: string, list: string): string {
    "mods-config/" + (name + ("/" + list))
  }

  /** The files of one enabled module, in the order in which they are put into the map. */
  function ModuleFiles(m: ModuleConfig): map<string, string>
    requires ModuleCheck(m).None? && m.enabled
  {
    var files := map[EnabledPath(m.name) := ModuleText(m)];
    if m.moduleType == "rlm_files" && m.files.Some? then
      var data := m.files.value;
      var withUsers := if data.authorize != "" then files[DataPath(m.name, "authorize") := data.authorize] else files;
      if data.accounting != "" then withUsers[DataPath(m.name, "accounting") := data.accounting] else withUsers
    else files
  }

  predicate ModulesPass(modules: seq<ModuleConfig>) {
    forall m | m in modules :: ModuleCheck(m).None?
  }

  /** Later modules overwrite the files of earlier ones. */
  function ModulesFiles(modules: seq<ModuleConfig>): map<string, string>
    requires ModulesPass(modules)
  {
    if modules == [] then map[]
    else
      var n := |modules| - 1;
      assert modules[n] in modules;
      ModulesFiles(modules[..n]) + if modules[n].enabled then ModuleFiles(modules[n]) else map[]
  }

  method RenderModule(m: ModuleConfig) returns (r: Result<string, RenderError>)
    requires m.enabled && (m.rawConfig == "" ==> KnownType(m.moduleType))
    ensures r.Ok? <==> ModuleCheck(m).None?
    ensures r.Ok? ==> r.value == ModuleText(m)
    ensures r.Err? ==> Some(r.error) == ModuleCheck(m)
  {
    if m.rawConfig != "" {
      return Ok(m.rawConfig);
    }
    if m.moduleType !in TEMPLATED_TYPES {
      NoTemplateNoConfig(m);
      return Ok(ShortName(m.moduleType) + (" " + (m.name + " {\n}\n")));
    }
    if !ConfigPresent(m) {
      return Err(MissingConfig(m.name));
    }
    return Ok(TextOf(ModulePieces(m)));
  }

  lemma NoTemplateNoConfig(m: ModuleConfig)
    requires m.moduleType !in TEMPLATED_TYPES
    ensures ConfigPresent(m)
  {
    var t := m.moduleType;
    assert "rlm_sql" == TEMPLATED_TYPES[0] && "rlm_ldap" == TEMPLATED_TYPES[1] && "rlm_eap" == TEMPLATED_TYPES[2];
    assert "rlm_rest" == TEMPLATED_TYPES[3] && "rlm_redis" == TEMPLATED_TYPES[4] && "rlm_files" == TEMPLATED_TYPES[5];
  }

  /** The first error among the modules. */
  function ModulesCheck(modules: seq<ModuleConfig>): (r: Option<RenderError>)
  {
    if modules == [] then None
    else if ModuleCheck(modules[0]).Some? then ModuleCheck(modules[0])
    else ModulesCheck(modules[1..])
  }

  lemma {:induction false} ModulesCheckPasses(modules: seq<ModuleConfig>)
    ensures ModulesCheck(modules).None? <==> ModulesPass(modules)
  {
    if modules != [] {
      ModulesCheckPasses(modules[1..]);
      assert modules == [modules[0]] + modules[1..];
    }
  }

  lemma ModulesStep(modules: seq<ModuleConfig>, i: nat)
    requires i < |modules| && ModulesPass(modules[..i]) && ModuleCheck(modules[i]).None?
    ensures ModulesPass(modules[..i + 1])
    ensures ModulesFiles(modules[..i + 1]) ==
            ModulesFiles(modules[..i]) + if modules[i].enabled then ModuleFiles(modules[i]) else map[]
  {
    assert modules[..i + 1] == modules[..i] + [modules[i]] && modules[..i + 1][..i] == modules[..i];
  }

  lemma CheckStep(modules: seq<ModuleConfig>, i: nat)
    requires i < |modules|
    ensures ModulesCheck(modules[i..]) == if ModuleCheck(modules[i]).Some? then ModuleCheck(modules[i])
            else ModulesCheck(modules[i + 1..])
  {
    assert modules[i..][1..] == modules[i + 1..];
  }

  method AddFiles(m: ModuleConfig, before: map<string, string>) returns (r: Result<map<string, string>, RenderError>)
    requires m.enabled && (m.rawConfig == "" ==> KnownType(m.moduleType))
    ensures r.Ok? <==> ModuleCheck(m).None?
    ensures r.Ok? ==> r.value == before + ModuleFiles(m)
    ensures r.Err? ==> Some(r.error) == ModuleCheck(m)
  {
    var text := RenderModule(m);
    if text.Err? {
      return Err(text.error);
    }
    var files := before[EnabledPath(m.name) := text.value];
    if m.moduleType == "rlm_files" && m.files.Some? {
      if m.files.value.authorize != "" {
        files := files[DataPath(m.name, "authorize") := m.files.value.authorize];
      }
      if m.files.value.accounting != "" {
        files := files[DataPath(m.name, "accounting") := m.files.value.accounting];
      }
    }
    return Ok(files);
  }

  method RenderModules(modules: seq<ModuleConfig>) returns (r: Result<map<string, string>, RenderError>)
    ensures r.Ok? <==> ModulesCheck(modules).None?
    ensures r.Ok? ==> ModulesPass(modules) && r.value == ModulesFiles(modules)
    ensures r.Err? ==> Some(r.error) == ModulesCheck(modules)
  {
    var files: map<string, string> := map[];
    for i := 0 to |modules|
      invariant ModulesPass(modules[..i]) && files == ModulesFiles(modules[..i])
      invariant ModulesCheck(modules) == ModulesCheck(modules[i..])
    {
      CheckStep(modules, i);
      if modules[i].enabled {
        if modules[i].rawConfig == "" && !KnownType(modules[i].moduleType) {
          return Err(UnknownModuleType(modules[i].moduleType));
        }
        var added := AddFiles(modules[i], files);
        if added.Err? {
          return Err(added.error);
        }
        files := added.value;
      }
      ModulesStep(modules, i);
    }
    assert modules[..|modules|] == modules;
    return Ok(files);
  }

  // ---------------------------------------------------------------- the whole

  function ClientsCheck(clients: seq<ClientSpec>): Option<RenderError> {
    if clients == [] then None
    else if !ValidClient(clients[0]) then Some(BadClient(clients[0].name))
    else ClientsCheck(clients[1..])
  }

  function FieldsCheck(modules: seq<ModuleConfig>): Option<RenderError> {
    if modules == [] then None
    else if modules[0].enabled && !ValidModule(modules[0]) then Some(BadModule(modules[0].name))
    else FieldsCheck(modules[1..])
  }

  function PoliciesCheck(policies: seq<PolicySpec>): Option<RenderError> {
    if policies == [] then None
    else if !ValidPolicy(policies[0]) then Some(BadPolicy(policies[0].name))
    else PoliciesCheck(policies[1..])
  }

  /** The error that Render reports: the first, in the order in which it looks. */
  function RenderCheck(ctx: Context): Option<RenderError> {
    if ClientsCheck(ctx.clients).Some? then ClientsCheck(ctx.clients)
    else if FieldsCheck(ctx.modules).Some? then FieldsCheck(ctx.modules)
    else if PoliciesCheck(ctx.policies).Some? then PoliciesCheck(ctx.policies)
    else if ModulesCheck(ctx.modules).Some? then ModulesCheck(ctx.modules)
    else if SitesCheck(ctx.policies).Some? then Some(BadSite(SitesCheck(ctx.policies).value))
    else None
  }

  function Files(radiusd: string, ctx: Context, sites: string): map<string, string>
    requires ModulesPass(ctx.modules)
  {
    (map["clients.conf" := ClientsText(ctx.clients), "radiusd.conf" := radiusd] + ModulesFiles(ctx.modules))
    ["sites-enabled/default" := sites]
  }

  method Validate(ctx: Context) returns (r: Option<RenderError>)
    ensures r == if ClientsCheck(ctx.clients).Some? then ClientsCheck(ctx.clients)
                 else if FieldsCheck(ctx.modules).Some? then FieldsCheck(ctx.modules)
                 else PoliciesCheck(ctx.policies)
  {
    for i := 0 to |ctx.clients|
      invariant ClientsCheck(ctx.clients) == ClientsCheck(ctx.clients[i..])
    {
      assert ctx.clients[i..][1..] == ctx.clients[i + 1..];
      if !ValidClient(ctx.clients[i]) {
        return Some(BadClient(ctx.clients[i].name));
      }
    }
    for i := 0 to |ctx.modules|
      invariant FieldsCheck(ctx.modules) == FieldsCheck(ctx.modules[i..])
    {
      assert ctx.modules[i..][1..] == ctx.modules[i + 1..];
      if ctx.modules[i].enabled && !ValidModule(ctx.modules[i]) {
        return Some(BadModule(ctx.modules[i].name));
      }
    }
    for i := 0 to |ctx.policies|
      invariant PoliciesCheck(ctx.policies) == PoliciesCheck(ctx.policies[i..])
    {
      assert ctx.policies[i..][1..] == ctx.policies[i + 1..];
      if !ValidPolicy(ctx.policies[i]) {
        return Some(BadPolicy(ctx.policies[i].name));
      }
    }
    return None;
  }

  method Render(radiusd: string, ctx: Context) returns (r: Result<map<string, string>, RenderError>)
    ensures r.Err? <==> RenderCheck(ctx).Some?
    ensures r.Err? ==> Some(r.error) == RenderCheck(ctx)
    ensures r.Ok? ==>
              && ModulesPass(ctx.modules)
              && exists arr: Arrangement ::
                   IsArrangement(arr, ctx.policies) && r.value == Files(radiusd, ctx, SitesText(arr, ctx.coaEnabled))
  {
    hide ClientsCheck, FieldsCheck, PoliciesCheck, ModulesCheck, SitesCheck, IsArrangement, ClientsText, SitesText;
    var invalid := Validate(ctx);
    if invalid.Some? {
      return Err(invalid.value);
    }
    var files: map<string, string> := map[];
    files := files["clients.conf" := ClientsText(ctx.clients)];
    files := files["radiusd.conf" := radiusd];
    var modules := RenderModules(ctx.modules);
    if modules.Err? {
      return Err(modules.error);
    }
    files := files + modules.value;
    var sites := RenderSites(ctx.policies, ctx.coaEnabled);
    if sites.Err? {
      return Err(BadSite(sites.error));
    }
    files := files["sites-enabled/default" := sites.value];
    assert files == Files(radiusd, ctx, sites.value);
    return Ok(files);
  }
}
