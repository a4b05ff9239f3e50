/** End to end: what a completed reconcile leaves in the ConfigMap and the Deployments, said from the
    objects that it read. */
module Configurations {
  import opened Wrappers
  import opened Specs
  import opened Sanitize
  import opened Objects
  import opened ApiServers
  import opened Clusters
  import opened Clients
  import opened Conditions
  import FileRefs
  import opened Unlang
  import opened Sites
  import opened SiteMeaning
  import opened ClientMeaning
  import opened ClientSecrets
  import opened RawClients
  import opened Flattening
  import opened ModuleTexts
  import opened ModuleMeaning
  import opened Rendering
  import opened RenderingMeaning
  import opened Secrets
  import opened ConfigHash
  import opened ClusterReconciles
  import opened ReadyReconciles
  import opened Workloads

  // ---------------------------------------------------------------- policies

  /** How often the cluster has this policy. */
  function Count(items: seq<RadiusPolicy>, name: string, p: PolicySpec): nat {
    if items == [] then 0
    else (if items[0].clusterRef == name && items[0].spec == p then 1 else 0) + Count(items[1..], name, p)
  }

  lemma {:induction false} CountSnoc(items: seq<RadiusPolicy>, last: RadiusPolicy, name: string, p: PolicySpec)
    ensures Count(items + [last], name, p) ==
            Count(items, name, p) + if last.clusterRef == name && last.spec == p then 1 else 0
  {
    if items == [] {
      assert items + [last] == [last] && [last][1..] == [];
    } else {
      assert (items + [last])[1..] == items[1..] + [last];
      CountSnoc(items[1..], last, name, p);
    }
  }

  lemma {:induction false} MatchingCount(items: seq<RadiusPolicy>, name: string, p: PolicySpec)
    ensures multiset(MatchingPolicies(items, name))[p] == Count(items, name, p)
  {
    if items != [] {
      var n := |items| - 1;
      assert items == items[..n] + [items[n]];
      CountSnoc(items[..n], items[n], name, p);
      MatchingCount(items[..n], name, p);
    }
  }

  /** Each stage holds the cluster's policies of that stage, each as often as it is there, in ascending
      priority. */
  ghost predicate Arranges(arr: Arrangement, items: seq<RadiusPolicy>, name: string) {
    forall stage | stage in STAGES ::
      && Sites.Sorted(AtStage(arr, stage))
      && forall p :: multiset(AtStage(arr, stage))[p] == if p.stage == stage then Count(items, name, p) else 0
  }

  lemma StageArranged(items: seq<RadiusPolicy>, name: string, stage: string, ps: seq<PolicySpec>)
    requires multiset(ps) == multiset(InStage(MatchingPolicies(items, name), stage))
    ensures forall p :: multiset(ps)[p] == if p.stage == stage then Count(items, name, p) else 0
  {
    forall p
      ensures multiset(ps)[p] == if p.stage == stage then Count(items, name, p) else 0
    {
      InStageCount(MatchingPolicies(items, name), stage, p);
      MatchingCount(items, name, p);
    }
  }

  lemma ArrangesThem(arr: Arrangement, items: seq<RadiusPolicy>, name: string)
    requires IsArrangement(arr, MatchingPolicies(items, name))
    ensures Arranges(arr, items, name)
  {
    hide AtStage, InStage, Count, MatchingPolicies;
    forall stage | stage in STAGES
      ensures forall p :: multiset(AtStage(arr, stage))[p] == if p.stage == stage then Count(items, name, p) else 0
    {
      StageArranged(items, name, stage, AtStage(arr, stage));
    }
  }

  /** Every policy of the cluster can be read back. */
  ghost predicate PoliciesReadable(prec: Precedence, raw: Reading, items: seq<RadiusPolicy>, name: string) {
    forall p | p in items && p.clusterRef == name :: Printable(prec, raw, p.spec) && PolicyClear(p.spec)
  }

  /** The text is the print of the cluster's policies, and if these can be read back, it is read as they
      are, with a server for CoA exactly if `coa` is enabled. */
  ghost predicate SitesSay(prec: Precedence, raw: Reading, c: Cluster, items: seq<RadiusPolicy>, text: string) {
    var coa := c.spec.coa.Some? && c.spec.coa.value.enabled;
    exists arr: Arrangement ::
      && Arranges(arr, items, c.name) && text == SitesText(arr, coa)
      && (PoliciesReadable(prec, raw, items, c.name) ==> ParseServers(prec, text) == Some(Compiled(raw, arr, coa)))
  }

  lemma StageReadable(prec: Precedence, raw: Reading, items: seq<RadiusPolicy>, name: string, stage: string,
                      ps: seq<PolicySpec>)
    requires PoliciesReadable(prec, raw, items, name) &&
             multiset(ps) == multiset(InStage(MatchingPolicies(items, name), stage))
    ensures forall p | p in ps :: Printable(prec, raw, p) && PolicyClear(p)
  {
    hide Printable, PolicyClear;
    forall p | p in ps
      ensures Printable(prec, raw, p) && PolicyClear(p)
    {
      assert p in multiset(ps);
      InStageMember(MatchingPolicies(items, name), stage, p);
      MatchingAre(items, name, p);
    }
  }

  lemma ReadablePrintable(prec: Precedence, raw: Reading, items: seq<RadiusPolicy>, name: string, arr: Arrangement)
    requires PoliciesReadable(prec, raw, items, name) && IsArrangement(arr, MatchingPolicies(items, name))
    ensures StagesPrintable(prec, raw, arr, STAGES) && StagesClear(arr, STAGES)
  {
    hide Printable, PolicyClear, AtStage, InStage, MatchingPolicies, PoliciesReadable, Sites.Sorted;
    forall stage | stage in STAGES
      ensures forall p | p in AtStage(arr, stage) :: Printable(prec, raw, p) && PolicyClear(p)
    {
      StageReadable(prec, raw, items, name, stage, AtStage(arr, stage));
    }
  }

  lemma SitesAsRead(prec: Precedence, raw: Reading, c: Cluster, items: seq<RadiusPolicy>, arr: Arrangement)
    requires IsArrangement(arr, MatchingPolicies(items, c.name))
    ensures SitesSay(prec, raw, c, items, SitesText(arr, CoAOn(c.spec)))
  {
    hide SitesText, ParseServers, Compiled, IsArrangement;
    ArrangesThem(arr, items, c.name);
    if PoliciesReadable(prec, raw, items, c.name) {
      ReadablePrintable(prec, raw, items, c.name, arr);
      SitesRoundTrip(prec, raw, arr, CoAOn(c.spec));
    }
  }

  // ---------------------------------------------------------------- clients

  /** The cluster's clients in order: a templated one with its fields and the reference to its secret, a
      raw one as its text is read. */
  function ClientRows(raw: RowReading, items: seq<RadiusClient>, name: string): seq<Row> {
    if items == [] then []
    else
      (if items[0].clusterRef != name then []
       else if items[0].rawConfig != "" then raw(items[0].rawConfig)
       else
         [Row(items[0].name, if ':' in items[0].ip then "ipv6addr" else "ipaddr", items[0].ip,
              Placeholder(items[0].secretRef), items[0].nasType)]) +
      ClientRows(raw, items[1..], name)
  }

  lemma {:induction false} ClientRowsSnoc(raw: RowReading, items: seq<RadiusClient>, last: RadiusClient, name: string)
    ensures ClientRows(raw, items + [last], name) == ClientRows(raw, items, name) + ClientRows(raw, [last], name)
  {
    if items == [] {
      assert items + [last] == [last];
    } else {
      assert (items + [last])[1..] == items[1..] + [last];
      ClientRowsSnoc(raw, items[1..], last, name);
      hide Placeholder;
    }
  }

  lemma {:induction false} AllRowsConcat(raw: RowReading, files: Option<FileRefs.Files>, a: seq<ClientSpec>,
      b: seq<ClientSpec>)
    ensures AllRows(raw, files, a + b) == AllRows(raw, files, a) + AllRows(raw, files, b)
    decreases |a|
  {
    hide RowsFor;
    if a == [] {
      assert a + b == b;
    } else {
      assert (a + b)[1..] == a[1..] + b;
      AllRowsConcat(raw, files, a[1..], b);
      assert RowsFor(raw, files, a[0]) + (AllRows(raw, files, a[1..]) + AllRows(raw, files, b)) ==
             AllRows(raw, files, a) + AllRows(raw, files, b);
    }
  }

  lemma OneClientRow(raw: RowReading, cl: RadiusClient, name: string)
    requires cl.clusterRef == name
    ensures AllRows(raw, None, ClientSpecs([cl])) == ClientRows(raw, [cl], name)
  {
    var specs := ClientSpecs([cl]);
    assert specs[1..] == [] && [cl][1..] == [];
    assert AllRows(raw, None, specs) == RowsFor(raw, None, specs[0]) + [];
    assert ClientRows(raw, [cl][1..], name) == [];
  }

  lemma {:induction false} RowsOfMatching(raw: RowReading, items: seq<RadiusClient>, name: string)
    ensures AllRows(raw, None, ClientSpecs(MatchingClients(items, name))) == ClientRows(raw, items, name)
  {
    if items != [] {
      var n := |items| - 1;
      var before := MatchingClients(items[..n], name);
      assert items == items[..n] + [items[n]];
      RowsOfMatching(raw, items[..n], name);
      ClientRowsSnoc(raw, items[..n], items[n], name);
      hide AllRows, ClientRows;
      if items[n].clusterRef == name {
        assert ClientSpecs(before + [items[n]]) == ClientSpecs(before) + ClientSpecs([items[n]]);
        AllRowsConcat(raw, None, ClientSpecs(before), ClientSpecs([items[n]]));
        OneClientRow(raw, items[n], name);
      } else {
        NoRows(raw, items[n], name);
        assert before + [] == before;
        assert ClientRows(raw, items[..n], name) + [] == ClientRows(raw, items[..n], name);
      }
    } else {
      assert ClientSpecs([]) == [];
    }
  }

  lemma NoRows(raw: RowReading, cl: RadiusClient, name: string)
    requires cl.clusterRef != name
    ensures ClientRows(raw, [cl], name) == []
  {
    assert [cl][1..] == [];
  }

  lemma {:induction false} MatchingClientsAre(items: seq<RadiusClient>, name: string, cl: RadiusClient)
    ensures cl in MatchingClients(items, name) <==> cl in items && cl.clusterRef == name
  {
    if items != [] {
      var n := |items| - 1;
      assert items == items[..n] + [items[n]];
      MatchingClientsAre(items[..n], name, cl);
    }
  }

  function SpecOf(cl: RadiusClient): ClientSpec {
    ClientSpec(cl.name, cl.ip, cl.secretRef, cl.nasType, cl.rawConfig)
  }

  lemma ClientSpecsAre(items: seq<RadiusClient>, name: string, spec: ClientSpec)
    ensures spec in ClientSpecs(MatchingClients(items, name)) <==>
            exists cl :: cl in items && cl.clusterRef == name && spec == SpecOf(cl)
  {
    var clients := MatchingClients(items, name);
    forall cl
      ensures cl in clients <==> cl in items && cl.clusterRef == name
    {
      MatchingClientsAre(items, name, cl);
    }
    assert forall i | 0 <= i < |clients| :: ClientSpecs(clients)[i] == SpecOf(clients[i]);
    if cl :| cl in clients && spec == SpecOf(cl) {
      var i :| 0 <= i < |clients| && clients[i] == cl;
      assert ClientSpecs(clients)[i] in ClientSpecs(clients);
    }
    if spec in ClientSpecs(clients) {
      var i :| 0 <= i < |clients| && ClientSpecs(clients)[i] == spec;
      assert clients[i] in clients;
    }
  }

  /** Every client of the cluster can be read back. */
  ghost predicate ClientsReadable(raw: RowReading, items: seq<RadiusClient>, name: string) {
    forall cl | cl in items && cl.clusterRef == name :: PrintableClient(raw, SpecOf(cl))
  }

  /** The text is read as the two local clients and the clients of the cluster, in order. */
  ghost predicate ClientsSay(raw: RowReading, items: seq<RadiusClient>, name: string, text: string) {
    ClientsReadable(raw, items, name) ==> ParseClients(text) == Some(LOCAL + ClientRows(raw, items, name))
  }

  lemma ClientsAsRead(raw: RowReading, items: seq<RadiusClient>, name: string)
    ensures ClientsSay(raw, items, name, ClientsText(ClientSpecs(MatchingClients(items, name))))
  {
    var specs := ClientSpecs(MatchingClients(items, name));
    if ClientsReadable(raw, items, name) {
      forall spec | spec in specs
        ensures PrintableClient(raw, spec) && (spec.rawConfig == "" ==> OneLine(SecretOf(None, spec)))
      {
        ClientSpecsAre(items, name, spec);
        if spec.rawConfig == "" {
          ClientSecrets.PathPlain(spec);
        }
      }
      hide ParseClients, FileText, PrintableClient, SecretOf, OneLine, ClientRows, AllRows;
      FileWithRawParses(raw, None, specs);
      RowsOfMatching(raw, items, name);
    }
  }

  // ---------------------------------------------------------------- modules

  /** Names that hold no `/`, as all validated ones; raw modules are not validated. */
  predicate NamesFlat(modules: seq<ModuleConfig>) {
    forall m | m in modules && m.enabled :: '/' !in m.name
  }

  /** The module's file reads as its configuration says, or is its raw text, and its lists are there. */
  predicate ModuleSays(m: ModuleConfig, data: map<string, string>) {
    && Content(data, "mods-enabled__" + m.name).Some?
    && (m.rawConfig != "" ==> data["mods-enabled__" + m.name] == m.rawConfig)
    && (m.rawConfig == "" ==> ConfigPresent(m))
    && (m.rawConfig == "" && RefsOnLine(m) ==> ParseModule(data["mods-enabled__" + m.name]) == Some(TreeOf(m)))
    && (m.moduleType == "rlm_files" && m.files.Some? && m.files.value.authorize != "" ==>
          Content(data, "mods-config__" + (m.name + "__authorize")) == Some(m.files.value.authorize))
    && (m.moduleType == "rlm_files" && m.files.Some? && m.files.value.accounting != "" ==>
          Content(data, "mods-config__" + (m.name + "__accounting")) == Some(m.files.value.accounting))
  }

  /** Under the keys of modules there is a file for each enabled module and no other, and the last module
      of each name is in it. */
  ghost predicate ModulesSay(modules: seq<ModuleConfig>, data: map<string, string>) {
    && (forall key | "mods-enabled__" <= key ::
          key in data <==> exists m :: m in modules && m.enabled && key == "mods-enabled__" + Flatten(m.name))
    && (NamesFlat(modules) ==> forall i: nat | LastNamed(modules, i) :: ModuleSays(modules[i], data))
  }

  lemma EnabledKey(name: string)
    ensures Flatten(EnabledPath(name)) == "mods-enabled__" + Flatten(name)
  {
    SlashFlattens();
    hide Flatten;
    FlattenConcat("mods-enabled/", name);
    FlattenConcat("mods-enabled", "/");
    NothingToFlatten("mods-enabled");
    assert "mods-enabled" + "/" == "mods-enabled/";
  }

  lemma DataKey(name: string, list: string)
    requires list in LISTS
    ensures !("mods-enabled__" <= Flatten(DataPath(name, list)))
  {
    SlashFlattens();
    FlattenConcat("mods-config/", name + ("/" + list));
    FlattenConcat("mods-config", "/");
    NothingToFlatten("mods-config");
    hide Flatten;
    assert "mods-config" + "/" == "mods-config/";
    var key := Flatten(DataPath(name, list));
    assert key[5] == 'c' && "mods-enabled__"[5] == 'e';
  }

  lemma CoreKeys(path: string)
    requires CorePath(path)
    ensures !("mods-enabled__" <= Flatten(path))
  {
    FlatCore(path);
    hide Flatten;
    assert "mods-enabled__"[0] == 'm';
  }

  lemma EnabledKeys(radiusd: string, ctx: Context, sites: string, data: map<string, string>, key: string)
    requires ModulesPass(ctx.modules) && FlatData(Rendering.Files(radiusd, ctx, sites), data) && "mods-enabled__" <= key
    ensures key in data <==> exists m :: m in ctx.modules && m.enabled && key == "mods-enabled__" + Flatten(m.name)
  {
    var files := Rendering.Files(radiusd, ctx, sites);
    hide Rendering.Files, Flatten, EnabledPath, DataPath, ModulesPass;
    if key in data {
      var p :| p in files && Flatten(p) == key;
      FilesAre(radiusd, ctx, sites, p);
      if CorePath(p) { CoreKeys(p); }
      var m :| m in ctx.modules && MakesPath(m, p);
      if p != EnabledPath(m.name) {
        var list :| list in ["authorize", "accounting"] && HasList(m, list) && p == DataPath(m.name, list);
        DataKey(m.name, list);
      }
      EnabledKey(m.name);
    }
    if m :| m in ctx.modules && m.enabled && key == "mods-enabled__" + Flatten(m.name) {
      EnabledKey(m.name);
      FilesAre(radiusd, ctx, sites, EnabledPath(m.name));
      assert MakesPath(m, EnabledPath(m.name));
    }
  }

  lemma AuthorizeKey(name: string)
    requires '/' !in name
    ensures Flatten("mods-config/" + (name + "/authorize")) == "mods-config__" + (name + "__authorize")
  {
    hide Flatten;
    ListKey(name, "authorize", "/authorize", "__authorize");
  }

  lemma AccountingKey(name: string)
    requires '/' !in name
    ensures Flatten("mods-config/" + (name + "/accounting")) == "mods-config__" + (name + "__accounting")
  {
    hide Flatten;
    ListKey(name, "accounting", "/accounting", "__accounting");
  }

  lemma ListKey(name: string, list: string, path: string, key: string)
    requires '/' !in name && '/' !in list && path == "/" + list && key == "__" + list
    ensures Flatten("mods-config/" + (name + path)) == "mods-config__" + (name + key)
  {
    hide Flatten;
    FlatDataPath(name, list);
  }

  lemma Kept(files: map<string, string>, data: map<string, string>, path: string, content: string)
    requires KeepsContents(files, data) && Content(files, path) == Some(content)
    ensures Content(data, Flatten(path)) == Some(content)
  {
    hide Flatten;
  }

  lemma ModuleAsRead(radiusd: string, ctx: Context, sites: string, data: map<string, string>, i: nat)
    requires RenderCheck(ctx).None? && ModulesPass(ctx.modules) && FlatData(Rendering.Files(radiusd, ctx, sites), data)
    requires NamesFlat(ctx.modules) && LastNamed(ctx.modules, i)
    ensures ModuleSays(ctx.modules[i], data)
  {
    var m, files := ctx.modules[i], Rendering.Files(radiusd, ctx, sites);
    assert m in ctx.modules;
    RendersExactly(ctx);
    KeysNeverCollide(radiusd, ctx, sites, files, data);
    NothingOverwritten(radiusd, ctx, sites, i);
    FlatEnabled(m.name);
    AuthorizeKey(m.name);
    AccountingKey(m.name);
    hide Rendering.Files, ModuleText, ParseModule, TreeOf, Flatten, FlatData, RenderCheck, KeepsContents, ValidModule;
    Kept(files, data, "mods-enabled/" + m.name, ModuleText(m));
    if RefsOnLine(m) { ModuleReads(m); } else if m.rawConfig != "" { RawText(m); }
    if m.moduleType == "rlm_files" && m.files.Some? {
      if m.files.value.authorize != "" {
        Kept(files, data, "mods-config/" + (m.name + "/authorize"), m.files.value.authorize);
      }
      if m.files.value.accounting != "" {
        Kept(files, data, "mods-config/" + (m.name + "/accounting"), m.files.value.accounting);
      }
    }
  }

  lemma RawText(m: ModuleConfig)
    requires m.enabled && m.rawConfig != ""
    ensures ModuleText(m) == m.rawConfig
  {
  }

  lemma ModulesAsRead(radiusd: string, ctx: Context, sites: string, data: map<string, string>)
    requires RenderCheck(ctx).None? && ModulesPass(ctx.modules) && FlatData(Rendering.Files(radiusd, ctx, sites), data)
    ensures ModulesSay(ctx.modules, data)
  {
    hide Rendering.Files, Flatten, RenderCheck, ModuleSays, FlatData, NamesFlat, ModulesPass;
    forall key | "mods-enabled__" <= key
      ensures key in data <==> exists m :: m in ctx.modules && m.enabled && key == "mods-enabled__" + Flatten(m.name)
    {
      EnabledKeys(radiusd, ctx, sites, data, key);
    }
    if NamesFlat(ctx.modules) {
      forall i: nat | LastNamed(ctx.modules, i)
        ensures ModuleSays(ctx.modules[i], data)
      {
        ModuleAsRead(radiusd, ctx, sites, data, i);
      }
    }
  }

  // ---------------------------------------------------------------- core files

  lemma {:induction false} CoreKept(radiusd: string, ctx: Context, sites: string, data: map<string, string>,
      path: string)
    requires ModulesPass(ctx.modules) && FlatData(Rendering.Files(radiusd, ctx, sites), data) && CorePath(path)
    ensures Content(data, Flatten(path)) == Content(Rendering.Files(radiusd, ctx, sites), path)
  {
    var files := Rendering.Files(radiusd, ctx, sites);
    FilesAre(radiusd, ctx, sites, path);
    FlatCore(path);
    hide Rendering.Files, Flatten, ModulesPass;
    assert Flatten(path) in data;
    var p :| p in files && Flatten(p) == Flatten(path) && data[Flatten(path)] == files[p];
    FilesAre(radiusd, ctx, sites, p);
    if CorePath(p) {
      FlatCore(p);
      FlattenInjective(p, path);
    } else {
      var m :| m in ctx.modules && MakesPath(m, p);
      FlatModuleFirst(m, p);
    }
  }

  lemma CoreKeyTexts()
    ensures Flatten("clients.conf") == "clients.conf" && Flatten("radiusd.conf") == "radiusd.conf"
    ensures Flatten("sites-enabled/default") == "sites-enabled__default"
  {
    hide Flatten;
    NothingToFlatten("clients.conf");
    NothingToFlatten("radiusd.conf");
    SitesKeyText();
  }

  lemma SitesKeyText()
    ensures Flatten("sites-enabled/default") == "sites-enabled__default"
  {
    SlashFlattens();
    hide Flatten;
    NothingToFlatten("sites-enabled");
    NothingToFlatten("default");
    FlattenConcat("/", "default");
    FlattenConcat("sites-enabled", "/default");
    Joined("sites-enabled", "/", "default", "/default", "sites-enabled/default");
    Joined("sites-enabled", "__", "default", "__default", "sites-enabled__default");
  }

  lemma Joined(a: string, b: string, c: string, bc: string, abc: string)
    requires bc == b + c && abc == a + bc
    ensures a + (b + c) == abc
  {
  }

  // ---------------------------------------------------------------- the whole

  /** The data of the ConfigMap, said from the cluster, its clients and its policies. */
  ghost predicate DataSays(prec: Precedence, raw: Reading, rows: RowReading, c: Cluster, inputs: Inputs,
                           radiusd: string, data: map<string, string>) {
    && Content(data, "clients.conf").Some? && ClientsSay(rows, inputs.clients, c.name, data["clients.conf"])
    && Content(data, "radiusd.conf") == Some(radiusd)
    && Content(data, "sites-enabled__default").Some?
    && SitesSay(prec, raw, c, inputs.policies, data["sites-enabled__default"])
    && ModulesSay(c.spec.modules, data)
  }

  lemma DataAsRead(prec: Precedence, raw: Reading, rows: RowReading, c: Cluster, inputs: Inputs, radiusd: string,
                   arr: Arrangement, data: map<string, string>)
    requires var ctx := ContextOf(c, inputs);
             && RenderCheck(ctx).None? && ModulesPass(ctx.modules) && IsArrangement(arr, ctx.policies)
             && FlatData(Rendering.Files(radiusd, ctx, SitesText(arr, ctx.coaEnabled)), data)
    ensures DataSays(prec, raw, rows, c, inputs, radiusd, data)
  {
    var ctx := ContextOf(c, inputs);
    var sites := SitesText(arr, ctx.coaEnabled);
    hide Rendering.Files, Flatten, RenderCheck, FlatData, SitesText, ClientsText, IsArrangement;
    hide ClientsSay, SitesSay, ModulesSay, MatchingClients, MatchingPolicies, ClientSpecs;
    CoreFiles(radiusd, ctx, sites);
    CoreKept(radiusd, ctx, sites, data, "clients.conf");
    CoreKept(radiusd, ctx, sites, data, "radiusd.conf");
    CoreKept(radiusd, ctx, sites, data, "sites-enabled/default");
    CoreKeyTexts();
    ClientsAsRead(rows, inputs.clients, c.name);
    SitesAsRead(prec, raw, c, inputs.policies, arr);
    ModulesAsRead(radiusd, ctx, sites, data);
  }

  /** The store holds this ConfigMap, and every Deployment of the cluster the digest of these files and of
      the clients. */
  predicate Carries(c: Cluster, m: Store, data: map<string, string>, hash: string) {
    && Slot(m, Key(ConfigMap, c.namespace, c.name + "-freeradius-config")).Some?
    && m[Key(ConfigMap, c.namespace, c.name + "-freeradius-config")].body == ConfigMapBody(data)
    && forall suffix | suffix in DeploymentSuffixes(c.spec) ::
         var k := Key(Deployment, c.namespace, c.name + suffix);
         k in m && m[k].body.DeploymentBody? && m[k].body.configHash == hash
  }

  /** The configuration of the cluster is in the store. */
  ghost predicate Configured(prec: Precedence, raw: Reading, rows: RowReading, c: Cluster, inputs: Inputs,
                             outside: Outside, m: Store) {
    exists files, data ::
      && FlatData(files, data)
      && DataSays(prec, raw, rows, c, inputs, outside.radiusd(c.spec), data)
      && Carries(c, m, data, outside.digest(ConfigStream(files, MatchingClients(inputs.clients, c.name))))
  }

  lemma PassCarries(w: ApiServers.World, c: Cluster, data: map<string, string>, refs: seq<SecretRef>, hash: string)
    requires RunOps(w, PassOps(c, data, refs, hash)).ok
    ensures Carries(c, RunOps(w, PassOps(c, data, refs, hash)).world.objects, data, hash)
  {
    hide PassOps, RunOps, UnifiedSays, SplitSays, BudgetSays;
    WorkloadsAsWanted(w, c, data, refs, hash);
    forall suffix | suffix in DeploymentSuffixes(c.spec)
      ensures var k := Key(Deployment, c.namespace, c.name + suffix);
              var m := RunOps(w, PassOps(c, data, refs, hash)).world.objects;
              k in m && m[k].body.DeploymentBody? && m[k].body.configHash == hash
    {
      HashAt(w, c, data, refs, hash, suffix);
    }
  }

  /** After a reconcile that takes its steps without a failure: the ConfigMap holds the policies and the
      clients that were read, read back as what they are, and a file for each enabled module; and every
      Deployment carries the digest of all that, so that pods roll when it changes. */
  lemma CompletedConfigures(prec: Precedence, raw: Reading, rows: RowReading, c: Cluster, inputs: Inputs,
                            outside: Outside, before: Store, after: Store, end: End, steps: Option<Steps>)
    requires Took(c, inputs, outside, before, after, end, steps) && (end.Completed? || end.LateReadFailed?)
    ensures Configured(prec, raw, rows, c, inputs, outside, after)
  {
    hide PassOps, RunOps, DataSays, Carries, ContextOf, RefsOf, FlatData, RenderCheck;
    var files, data :|
      && IsRendering(outside.radiusd(c.spec), ContextOf(c, inputs), files) && FlatData(files, data)
      && steps.value.ops == PassOps(c, data, RefsOf(c, inputs), HashOf(c, inputs, outside, files));
    var arr: Arrangement :|
      && IsArrangement(arr, ContextOf(c, inputs).policies)
      && files ==
         Rendering.Files(outside.radiusd(c.spec), ContextOf(c, inputs),
                         SitesText(arr, ContextOf(c, inputs).coaEnabled));
    DataAsRead(prec, raw, rows, c, inputs, outside.radiusd(c.spec), arr, data);
    PassCarries(steps.value.start, c, data, RefsOf(c, inputs), HashOf(c, inputs, outside, files));
  }

  // ---------------------------------------------------------------- what stops a reconcile

  /** All fields that are checked, of what was read, are valid. */
  ghost predicate FieldsValid(c: Cluster, inputs: Inputs) {
    && (forall cl | cl in inputs.clients && cl.clusterRef == c.name :: ValidClient(SpecOf(cl)))
    && (forall m | m in c.spec.modules && m.enabled :: ValidModule(m))
    && (forall p | p in inputs.policies && p.clusterRef == c.name :: ValidPolicy(p.spec))
  }

  predicate TypeFine(m: ModuleConfig) {
    m.enabled && m.rawConfig == "" ==> KnownType(m.moduleType) && ConfigPresent(m)
  }

  /** The i-th module is of unknown type, and all before it are in order. */
  predicate UnknownTypeAt(modules: seq<ModuleConfig>, i: nat) {
    && i < |modules| && modules[i].enabled && modules[i].rawConfig == "" && !KnownType(modules[i].moduleType)
    && forall j | 0 <= j < i :: TypeFine(modules[j])
  }

  predicate UnknownTypeFirst(modules: seq<ModuleConfig>) {
    exists i | 0 <= i < |modules| :: UnknownTypeAt(modules, i)
  }

  /** Some policy of the cluster, raw or not, names an unknown stage or action kind. */
  predicate UnknownInPolicies(items: seq<RadiusPolicy>, name: string) {
    exists p | p in items :: p.clusterRef == name &&
      (p.spec.stage !in STAGES || exists a | a in p.spec.actions :: a.kind !in ACTION_KINDS)
  }

  lemma {:induction false} AtError(modules: seq<ModuleConfig>, i: nat)
    requires UnknownTypeAt(modules, i)
    ensures ModulesCheck(modules) == Some(UnknownModuleType(modules[i].moduleType))
  {
    hide KnownType, ConfigPresent;
    if i > 0 {
      assert TypeFine(modules[0]);
      assert forall j | 0 <= j < i - 1 :: modules[1..][j] == modules[j + 1];
      AtError(modules[1..], i - 1);
    }
  }

  lemma {:induction false} ErrorAt(modules: seq<ModuleConfig>) returns (i: nat)
    requires ModulesCheck(modules).Some? && ModulesCheck(modules).value.UnknownModuleType?
    ensures UnknownTypeAt(modules, i)
  {
    hide KnownType, ConfigPresent;
    if ModuleCheck(modules[0]).Some? {
      i := 0;
    } else {
      i := ErrorAt(modules[1..]);
      assert forall j | 0 <= j < i :: TypeFine(modules[1..][j]);
      assert forall j | 0 < j < i + 1 :: modules[j] == modules[1..][j - 1];
      i := i + 1;
    }
  }

  lemma FirstUnknownType(modules: seq<ModuleConfig>)
    ensures ModulesCheck(modules).Some? && ModulesCheck(modules).value.UnknownModuleType? <==> UnknownTypeFirst(modules)
    ensures ModulesCheck(modules).None? <==> forall m | m in modules :: TypeFine(m)
  {
    ModulesCheckPasses(modules);
    hide ModulesCheck, KnownType, ConfigPresent;
    if ModulesCheck(modules).Some? && ModulesCheck(modules).value.UnknownModuleType? {
      var i := ErrorAt(modules);
    }
    if i :| 0 <= i < |modules| && UnknownTypeAt(modules, i) {
      AtError(modules, i);
    }
  }

  lemma ContextFields(c: Cluster, inputs: Inputs)
    ensures FieldsValid(c, inputs) <==>
            var ctx := ContextOf(c, inputs);
            ClientsCheck(ctx.clients).None? && FieldsCheck(ctx.modules).None? && PoliciesCheck(ctx.policies).None?
    ensures UnknownInPolicies(inputs.policies, c.name) <==> !KnownPolicies(ContextOf(c, inputs).policies)
  {
    var ctx := ContextOf(c, inputs);
    ClientsCheckPasses(ctx.clients);
    FieldsCheckPasses(ctx.modules);
    PoliciesCheckPasses(ctx.policies);
    forall spec
      ensures spec in ctx.clients <==>
              exists cl :: cl in inputs.clients && cl.clusterRef == c.name && spec == SpecOf(cl)
    {
      ClientSpecsAre(inputs.clients, c.name, spec);
    }
    forall spec
      ensures spec in ctx.policies <==> exists p :: p in inputs.policies && p.clusterRef == c.name && p.spec == spec
    {
      MatchingAre(inputs.policies, c.name, spec);
    }
    hide ValidClient, ValidModule, ValidPolicy;
    assert forall cl | cl in inputs.clients && cl.clusterRef == c.name :: SpecOf(cl) in ctx.clients;
    assert forall p | p in inputs.policies && p.clusterRef == c.name :: p.spec in ctx.policies;
  }

  /** An invalid spec, exactly: all fields are valid, and then a module is of unknown type with all before
      it in order, or all modules are in order and a policy names an unknown stage or action kind. */
  lemma InvalidSpecExactly(c: Cluster, inputs: Inputs)
    ensures HasInvalidSpec(c, inputs) <==>
            FieldsValid(c, inputs) &&
            (UnknownTypeFirst(c.spec.modules) ||
             ((forall m | m in c.spec.modules :: TypeFine(m)) && UnknownInPolicies(inputs.policies, c.name)))
  {
    var ctx := ContextOf(c, inputs);
    InvalidExactly(ctx);
    ContextFields(c, inputs);
    FirstUnknownType(ctx.modules);
    ModulesCheckPasses(ctx.modules);
  }

  /** Rendering works, exactly, said from what was read. */
  lemma RenderableExactly(c: Cluster, inputs: Inputs)
    ensures RenderCheck(ContextOf(c, inputs)).None? <==>
            && FieldsValid(c, inputs) && (forall m | m in c.spec.modules :: TypeFine(m))
            && !UnknownInPolicies(inputs.policies, c.name)
  {
    var ctx := ContextOf(c, inputs);
    ContextFields(c, inputs);
    FirstUnknownType(ctx.modules);
    SitesCheckPasses(ctx.policies);
    hide ClientsCheck, FieldsCheck, PoliciesCheck, ModulesCheck, SitesCheck, FieldsValid, UnknownInPolicies;
  }

  // ---------------------------------------------------------------- Secrets

  /** The cluster needs this Secret: for TLS, for an enabled module, or for a client, raw or not. */
  predicate Needs(c: Cluster, items: seq<RadiusClient>, secret: string) {
    && secret != ""
    && (|| (c.spec.tls.Some? && c.spec.tls.value.enabled && c.spec.tls.value.secretRef.name == secret)
        || ModulesNeed(c.spec.modules, secret)
        || (exists cl | cl in items :: cl.clusterRef == c.name && cl.secretRef.name == secret))
  }

  predicate ModuleNeeds(m: ModuleConfig, secret: string) {
    || (m.sql.Some? && m.sql.value.password.name == secret)
    || (m.ldap.Some? && m.ldap.value.password.name == secret)
    || (m.rest.Some? && m.rest.value.password.Some? && m.rest.value.password.value.name == secret)
    || (m.redis.Some? && m.redis.value.password.Some? && m.redis.value.password.value.name == secret)
  }

  predicate ModulesNeed(modules: seq<ModuleConfig>, secret: string) {
    exists m | m in modules :: m.enabled && ModuleNeeds(m, secret)
  }

  lemma ModuleRefsAre(m: ModuleConfig, secret: string)
    ensures secret in Names(ModuleRefs(m)) <==> m.enabled && ModuleNeeds(m, secret)
  {
    if m.enabled {
      var rest, redis := OptionalRef(RESTPassword(m.rest)), OptionalRef(RedisPassword(m.redis));
      var ldap := OptionalRef(LDAPPassword(m.ldap));
      NamesConcat(rest, redis);
      NamesConcat(ldap, rest + redis);
      NamesConcat(OptionalRef(SQLPassword(m.sql)), ldap + (rest + redis));
    }
  }

  lemma NamesConcat(a: seq<SecretRef>, b: seq<SecretRef>)
    ensures Names(a + b) == Names(a) + Names(b)
  {
    assert forall r :: r in a + b <==> r in a || r in b;
  }

  lemma NeedsSnoc(modules: seq<ModuleConfig>, last: ModuleConfig, secret: string)
    ensures ModulesNeed(modules + [last], secret) <==>
            ModulesNeed(modules, secret) || (last.enabled && ModuleNeeds(last, secret))
  {
    hide ModuleNeeds;
    assert (modules + [last])[|modules|] == last;
  }

  lemma {:induction false} AllModuleRefsAre(modules: seq<ModuleConfig>, secret: string)
    ensures secret in Names(AllModuleRefs(modules)) <==> ModulesNeed(modules, secret)
  {
    if modules != [] {
      hide ModuleNeeds, ModuleRefs, ModulesNeed, Names;
      var n := |modules| - 1;
      AllModuleRefsAre(modules[..n], secret);
      NamesConcat(AllModuleRefs(modules[..n]), ModuleRefs(modules[n]));
      ModuleRefsAre(modules[n], secret);
      NeedsSnoc(modules[..n], modules[n], secret);
      assert modules == modules[..n] + [modules[n]];
    }
  }

  lemma {:induction false} ClientRefsAre(clients: seq<RadiusClient>, secret: string)
    ensures secret in Names(ClientRefs(clients)) <==> exists cl | cl in clients :: cl.secretRef.name == secret
  {
    if clients != [] {
      var n := |clients| - 1;
      ClientRefsAre(clients[..n], secret);
      NamesConcat(ClientRefs(clients[..n]), [clients[n].secretRef]);
      assert [clients[n].secretRef][0] in [clients[n].secretRef];
      assert clients == clients[..n] + [clients[n]];
    }
  }

  /** The Secrets that are collected are the ones that are needed. */
  lemma NeededExactly(c: Cluster, inputs: Inputs, secret: string)
    ensures secret in Names(RefsOf(c, inputs)) <==> Needs(c, inputs.clients, secret)
  {
    var clients := MatchingClients(inputs.clients, c.name);
    var tls := if c.spec.tls.Some? && c.spec.tls.value.enabled then [c.spec.tls.value.secretRef] else [];
    FirstOfEachIs(Candidates(c.spec, clients));
    NamesConcat(tls, AllModuleRefs(c.spec.modules));
    NamesConcat(tls + AllModuleRefs(c.spec.modules), ClientRefs(clients));
    AllModuleRefsAre(c.spec.modules, secret);
    ClientRefsAre(clients, secret);
    forall cl
      ensures cl in clients <==> cl in inputs.clients && cl.clusterRef == c.name
    {
      MatchingClientsAre(inputs.clients, c.name, cl);
    }
    hide ModuleNeeds, AllModuleRefs, ClientRefs, FirstOfEach;
    assert tls != [] ==> tls[0] in tls;
  }

  /** And they are the ones that are mounted, and whose absence stops a reconcile. */
  lemma NeededAreMounted(c: Cluster, inputs: Inputs, ports: seq<Port>)
    ensures forall secret :: Mounted(PodOf(c, RefsOf(c, inputs), ports), secret) <==> Needs(c, inputs.clients, secret)
    ensures LacksSecret(c, inputs) <==> exists secret :: Needs(c, inputs.clients, secret) && secret !in inputs.secrets
  {
    hide Needs, RefsOf, Mounted, PodOf;
    var refs := RefsOf(c, inputs);
    forall secret
      ensures Mounted(PodOf(c, refs, ports), secret) <==> Needs(c, inputs.clients, secret)
      ensures secret in Names(refs) <==> Needs(c, inputs.clients, secret)
    {
      NeededExactly(c, inputs, secret);
      MountedExactly(c, refs, ports, secret);
    }
    if LacksSecret(c, inputs) {
      var k :| 0 <= k < |refs| && refs[k].name !in inputs.secrets;
      assert refs[k].name in Names(refs);
    }
    if secret :| Needs(c, inputs.clients, secret) && secret !in inputs.secrets {
      assert secret in Names(refs);
      var r :| r in refs && r.name == secret;
      if !LacksSecret(c, inputs) {
        AllBefore(refs, inputs.secrets, |refs|);
      }
    }
  }
}
