/** When rendering succeeds, which files it makes, and that none of them gets lost on the way into
    the pod. */
module RenderingMeaning {
  import opened Wrappers
  import opened Specs
  import opened Sanitize
  import opened Clients
  import opened Sites
  import opened Flattening
  import opened ModuleTexts
  import opened Rendering

  // ---------------------------------------------------------------- success

  lemma {:induction false} ClientsCheckPasses(clients: seq<ClientSpec>)
    ensures ClientsCheck(clients).None? <==> forall c | c in clients :: ValidClient(c)
  {
    if clients != [] {
      ClientsCheckPasses(clients[1..]);
      assert clients == [clients[0]] + clients[1..];
    }
  }

  lemma {:induction false} FieldsCheckPasses(modules: seq<ModuleConfig>)
    ensures FieldsCheck(modules).None? <==> forall m | m in modules && m.enabled :: ValidModule(m)
  {
    if modules != [] {
      FieldsCheckPasses(modules[1..]);
      assert modules == [modules[0]] + modules[1..];
    }
  }

  lemma {:induction false} PoliciesCheckPasses(policies: seq<PolicySpec>)
    ensures PoliciesCheck(policies).None? <==> forall p | p in policies :: ValidPolicy(p)
  {
    if policies != [] {
      PoliciesCheckPasses(policies[1..]);
      assert policies == [policies[0]] + policies[1..];
    }
  }

  /** Rendering succeeds exactly when every check of every part holds: raw clients and modules are
      taken as they are, raw policies still need a known stage and known action kinds, and a
      templated module needs a known type and the configuration of that type. */
  lemma RendersExactly(ctx: Context)
    ensures RenderCheck(ctx).None? <==>
            && (forall c | c in ctx.clients :: ValidClient(c))
            && (forall m | m in ctx.modules && m.enabled ::
                  ValidModule(m) && (m.rawConfig == "" ==> KnownType(m.moduleType) && ConfigPresent(m)))
            && (forall p | p in ctx.policies :: ValidPolicy(p))
            && KnownPolicies(ctx.policies)
  {
    ClientsCheckPasses(ctx.clients);
    FieldsCheckPasses(ctx.modules);
    PoliciesCheckPasses(ctx.policies);
    ModulesCheckPasses(ctx.modules);
    SitesCheckPasses(ctx.policies);
  }

  lemma {:induction false} ModulesErrors(modules: seq<ModuleConfig>)
    ensures var e := ModulesCheck(modules); e.Some? ==> e.value.UnknownModuleType? || e.value.MissingConfig?
    ensures ModulesCheck(modules).Some? && ModulesCheck(modules).value.UnknownModuleType? ==>
              exists m :: m in modules && m.enabled && m.rawConfig == "" && !KnownType(m.moduleType)
  {
    if modules != [] {
      ModulesErrors(modules[1..]);
      assert modules == [modules[0]] + modules[1..];
      assert modules[0] in modules;
    }
  }

  lemma {:induction false} EarlyErrors(ctx: Context)
    ensures var e := ClientsCheck(ctx.clients); e.Some? ==> e.value.BadClient?
    ensures var e := FieldsCheck(ctx.modules); e.Some? ==> e.value.BadModule?
    ensures var e := PoliciesCheck(ctx.policies); e.Some? ==> e.value.BadPolicy?
    decreases |ctx.clients| + |ctx.modules| + |ctx.policies|
  {
    if ctx.clients != [] {
      EarlyErrors(ctx.(clients := ctx.clients[1..]));
    }
    if ctx.modules != [] {
      EarlyErrors(ctx.(modules := ctx.modules[1..]));
    }
    if ctx.policies != [] {
      EarlyErrors(ctx.(policies := ctx.policies[1..]));
    }
  }

  /** What the controller calls an invalid spec: only once all field checks passed, and then an
      unknown module type, or an unknown stage or action kind with all modules in order. */
  lemma InvalidExactly(ctx: Context)
    ensures (RenderCheck(ctx).Some? && IsInvalid(RenderCheck(ctx).value)) <==>
            && ClientsCheck(ctx.clients).None? && FieldsCheck(ctx.modules).None? && PoliciesCheck(ctx.policies).None?
            && ((ModulesCheck(ctx.modules).Some? && ModulesCheck(ctx.modules).value.UnknownModuleType?) ||
                (ModulesPass(ctx.modules) && !KnownPolicies(ctx.policies)))
  {
    EarlyErrors(ctx);
    ModulesErrors(ctx.modules);
    ModulesCheckPasses(ctx.modules);
    SitesCheckPasses(ctx.policies);
  }

  // ---------------------------------------------------------------- the files

  predicate HasList(m: ModuleConfig, list: string) {
    && m.moduleType == "rlm_files" && m.files.Some?
    && ((list == "authorize" && m.files.value.authorize != "") ||
        (list == "accounting" && m.files.value.accounting != ""))
  }

  /** The module puts this path into the map. */
  predicate MakesPath(m: ModuleConfig, path: string) {
    && m.enabled
    && (path == EnabledPath(m.name) ||
        exists list :: list in ["authorize", "accounting"] && HasList(m, list) && path == DataPath(m.name, list))
  }

  lemma ModuleKeys(m: ModuleConfig, path: string)
    requires ModuleCheck(m).None? && m.enabled
    ensures path in ModuleFiles(m) <==> MakesPath(m, path)
  {
    hide ModuleText, EnabledPath, DataPath;
    var lists := ["authorize", "accounting"];
    assert lists[0] in lists && lists[1] in lists;
  }

  lemma {:induction false} ModulesKeys(modules: seq<ModuleConfig>, path: string)
    requires ModulesPass(modules)
    ensures path in ModulesFiles(modules) <==> exists m :: m in modules && MakesPath(m, path)
  {
    if modules != [] {
      var n := |modules| - 1;
      assert modules[n] in modules && modules == modules[..n] + [modules[n]];
      ModulesKeys(modules[..n], path);
      if modules[n].enabled {
        ModuleKeys(modules[n], path);
      }
    }
  }

  lemma PathsApart(a: string, b: string, list: string, other: string)
    requires list in ["authorize", "accounting"] && other in ["authorize", "accounting"]
    ensures EnabledPath(a) == EnabledPath(b) <==> a == b
    ensures EnabledPath(a) != DataPath(b, list)
    ensures DataPath(a, list) == DataPath(b, other) <==> a == b && list == other
  {
    assert EnabledPath(a)[13..] == a && EnabledPath(b)[13..] == b;
    assert EnabledPath(a)[5] == 'e' && DataPath(b, list)[5] == 'c';
    var p, q := DataPath(a, list), DataPath(b, other);
    assert p[|p| - 1] == list[|list| - 1] && q[|q| - 1] == other[|other| - 1];
    assert list[|list| - 1] == other[|other| - 1] <==> list == other;
    assert p[12..|p| - |list| - 1] == a && q[12..|q| - |other| - 1] == b;
  }

  predicate CorePath(path: string) {
    path == "clients.conf" || path == "radiusd.conf" || path == "sites-enabled/default"
  }

  lemma NotCore(m: ModuleConfig, path: string)
    requires MakesPath(m, path)
    ensures !CorePath(path)
  {
    assert path[0] == 'm' by {
      assert EnabledPath(m.name)[0] == 'm' && forall list :: DataPath(m.name, list)[0] == 'm';
    }
  }

  /** The files that come out are the three core files and what the enabled modules make. */
  lemma FilesAre(radiusd: string, ctx: Context, sites: string, path: string)
    requires ModulesPass(ctx.modules)
    ensures path in Files(radiusd, ctx, sites) <==> CorePath(path) || exists m :: m in ctx.modules && MakesPath(m, path)
  {
    ModulesKeys(ctx.modules, path);
  }

  /** Two modules share a path only if they share a name. */
  lemma SharedPath(m: ModuleConfig, n: ModuleConfig, path: string)
    requires MakesPath(m, path) && MakesPath(n, path)
    ensures m.name == n.name
  {
    forall list, other | list in ["authorize", "accounting"] && other in ["authorize", "accounting"]
      ensures EnabledPath(m.name) == EnabledPath(n.name) <==> m.name == n.name
      ensures EnabledPath(m.name) != DataPath(n.name, list) && EnabledPath(n.name) != DataPath(m.name, list)
      ensures DataPath(m.name, list) == DataPath(n.name, other) ==> m.name == n.name
    {
      PathsApart(m.name, n.name, list, other);
      PathsApart(n.name, m.name, list, other);
    }
    assert "authorize" in ["authorize", "accounting"];
  }

  /** The module is enabled, and no enabled one after it has its name. */
  predicate LastNamed(modules: seq<ModuleConfig>, i: nat) {
    i < |modules| && modules[i].enabled &&
    forall j | i < j < |modules| && modules[j].enabled :: modules[j].name != modules[i].name
  }

  lemma {:induction false} ModuleFilesKept(modules: seq<ModuleConfig>, i: nat, path: string)
    requires ModulesPass(modules) && LastNamed(modules, i) && MakesPath(modules[i], path)
    ensures path in ModuleFiles(modules[i]) && path in ModulesFiles(modules)
    ensures ModulesFiles(modules)[path] == ModuleFiles(modules[i])[path]
  {
    var n := |modules| - 1;
    assert modules[n] in modules && modules[i] in modules;
    ModuleKeys(modules[i], path);
    if i < n {
      assert modules[..n][i] == modules[i];
      ModuleFilesKept(modules[..n], i, path);
      if modules[n].enabled {
        ModuleKeys(modules[n], path);
        if MakesPath(modules[n], path) {
          SharedPath(modules[i], modules[n], path);
        }
      }
    }
  }

  /** The last module of a name overwrites the others, and nothing overwrites it; so with distinct names
      every file comes out with its own content: the module's text, and each list in its own file. */
  lemma NothingOverwritten(radiusd: string, ctx: Context, sites: string, i: nat)
    requires ModulesPass(ctx.modules) && LastNamed(ctx.modules, i)
    ensures var files, m := Files(radiusd, ctx, sites), ctx.modules[i];
            && Content(files, "mods-enabled/" + m.name) == Some(ModuleText(m))
            && (m.moduleType == "rlm_files" && m.files.Some? && m.files.value.authorize != "" ==>
                  Content(files, "mods-config/" + (m.name + "/authorize")) == Some(m.files.value.authorize))
            && (m.moduleType == "rlm_files" && m.files.Some? && m.files.value.accounting != "" ==>
                  Content(files, "mods-config/" + (m.name + "/accounting")) == Some(m.files.value.accounting))
  {
    var m := ctx.modules[i];
    assert m in ctx.modules;
    ListPaths(m.name);
    OwnFiles(m);
    FileKept(radiusd, ctx, sites, i, EnabledPath(m.name));
    var lists := ["authorize", "accounting"];
    assert lists[0] in lists && lists[1] in lists;
    hide ModuleText, Files, ModuleFiles;
    if HasList(m, "authorize") { FileKept(radiusd, ctx, sites, i, DataPath(m.name, "authorize")); }
    if HasList(m, "accounting") { FileKept(radiusd, ctx, sites, i, DataPath(m.name, "accounting")); }
  }

  function Content(files: map<string, string>, path: string): Option<string> {
    if path in files then Some(files[path]) else None
  }

  lemma ListPaths(name: string)
    ensures DataPath(name, "authorize") == "mods-config/" + (name + "/authorize")
    ensures DataPath(name, "accounting") == "mods-config/" + (name + "/accounting")
  {
    assert "/" + "authorize" == "/authorize" && "/" + "accounting" == "/accounting";
  }

  /** What a module brings, file by file. */
  lemma OwnFiles(m: ModuleConfig)
    requires ModuleCheck(m).None? && m.enabled
    ensures Content(ModuleFiles(m), EnabledPath(m.name)) == Some(ModuleText(m))
    ensures HasList(m, "authorize") ==>
              Content(ModuleFiles(m), DataPath(m.name, "authorize")) == Some(m.files.value.authorize)
    ensures HasList(m, "accounting") ==>
              Content(ModuleFiles(m), DataPath(m.name, "accounting")) == Some(m.files.value.accounting)
  {
    PathsApart(m.name, m.name, "authorize", "accounting");
    PathsApart(m.name, m.name, "accounting", "accounting");
    hide ModuleText, EnabledPath, DataPath;
  }

  lemma FileKept(radiusd: string, ctx: Context, sites: string, i: nat, path: string)
    requires ModulesPass(ctx.modules) && LastNamed(ctx.modules, i) && MakesPath(ctx.modules[i], path)
    ensures Content(Files(radiusd, ctx, sites), path) == Content(ModuleFiles(ctx.modules[i]), path)
  {
    ModuleFilesKept(ctx.modules, i, path);
    NotCore(ctx.modules[i], path);
    hide ModuleFiles, ModulesFiles, ClientsText;
  }

  /** The three core files come out with their own contents. */
  lemma CoreFiles(radiusd: string, ctx: Context, sites: string)
    requires ModulesPass(ctx.modules)
    ensures var files := Files(radiusd, ctx, sites);
            && Content(files, "clients.conf") == Some(ClientsText(ctx.clients)) &&
               Content(files, "radiusd.conf") == Some(radiusd)
            && Content(files, "sites-enabled/default") == Some(sites)
  {
    CoreNotMade(ctx.modules, "clients.conf");
    CoreNotMade(ctx.modules, "radiusd.conf");
    hide ModulesFiles, ClientsText;
    assert "clients.conf"[0] == 'c' && "radiusd.conf"[0] == 'r' && ("sites-enabled/default")[0] == 's';
  }

  lemma CoreNotMade(modules: seq<ModuleConfig>, path: string)
    requires ModulesPass(modules) && CorePath(path)
    ensures path !in ModulesFiles(modules)
  {
    ModulesKeys(modules, path);
    if m :| m in modules && MakesPath(m, path) {
      NotCore(m, path);
    }
  }

  // ---------------------------------------------------------------- the way into the pod

  lemma TameEnabled(name: string)
    ensures Tame(EnabledPath(name)) <==> Tame(name)
  {
    var p := EnabledPath(name);
    assert p[12] == '/' && forall i | 0 <= i < |name| :: p[13 + i] == name[i];
    if Tame(p) {
      forall i | 0 <= i < |name| - 1 && name[i] == '_'
        ensures name[i + 1] != '_' && name[i + 1] != '/'
      {
        assert p[13 + i] == '_' && p[13 + i + 1] == name[i + 1];
      }
    }
  }

  lemma DataCharacters(name: string, list: string, i: nat)
    requires i < |DataPath(name, list)|
    ensures |DataPath(name, list)| == 12 + |name| + 1 + |list|
    ensures DataPath(name, list)[i] ==
            if i < 12 then "mods-config/"[i] else if i < 12 + |name| then name[i - 12]
            else if i == 12 + |name| then '/' else list[i - 13 - |name|]
  {
  }

  lemma TameData(name: string, list: string)
    requires list in ["authorize", "accounting"]
    ensures Tame(DataPath(name, list)) <==> Tame(name) && (name != "" ==> name[|name| - 1] != '_')
  {
    var p := DataPath(name, list);
    assert '_' !in "mods-config/" && '_' !in "authorize" && '_' !in "accounting";
    forall i | 0 <= i < |p|
      ensures p[i] == '_' ==> 12 <= i < 12 + |name| && name[i - 12] == '_'
      ensures 12 <= i < 12 + |name| ==> p[i] == name[i - 12]
      ensures i == 12 + |name| ==> p[i] == '/'
    {
      DataCharacters(name, list, i);
      assert i > 12 + |name| ==> list[i - 13 - |name|] in list;
      assert i < 12 ==> "mods-config/"[i] in "mods-config/";
    }
    if Tame(p) {
      forall i | 0 <= i < |name| && name[i] == '_'
        ensures i < |name| - 1 && name[i + 1] != '_' && name[i + 1] != '/'
      {
        assert p[12 + i] == '_' && p[12 + i + 1] != '/';
      }
    }
  }

  /** A module whose files survive the way through the ConfigMap. */
  predicate TameModule(m: ModuleConfig) {
    m.enabled ==>
      && Tame(m.name)
      && ((HasList(m, "authorize") || HasList(m, "accounting")) && m.name != "" ==> m.name[|m.name| - 1] != '_')
  }

  lemma PathsOf(m: ModuleConfig, path: string)
    ensures MakesPath(m, path) <==>
            m.enabled &&
            (path == EnabledPath(m.name) ||
             (HasList(m, "authorize") && path == DataPath(m.name, "authorize")) ||
             (HasList(m, "accounting") && path == DataPath(m.name, "accounting")))
  {
    var lists := ["authorize", "accounting"];
    assert lists[0] in lists && lists[1] in lists;
  }

  lemma TameModuleExactly(m: ModuleConfig)
    ensures TameModule(m) <==> forall path | MakesPath(m, path) :: Tame(path)
  {
    TameEnabled(m.name);
    TameData(m.name, "authorize");
    TameData(m.name, "accounting");
    PathsOf(m, EnabledPath(m.name));
    PathsOf(m, DataPath(m.name, "authorize"));
    PathsOf(m, DataPath(m.name, "accounting"));
    if TameModule(m) {
      forall path | MakesPath(m, path)
        ensures Tame(path)
      {
        PathsOf(m, path);
      }
    }
  }

  lemma CoreTame(path: string)
    requires CorePath(path)
    ensures Tame(path)
  {
    assert '_' !in "clients.conf" && '_' !in "radiusd.conf" && '_' !in "sites-enabled/default";
  }

  lemma AllTameExactly(radiusd: string, ctx: Context, sites: string)
    requires ModulesPass(ctx.modules)
    ensures AllTame(Files(radiusd, ctx, sites)) <==> forall m | m in ctx.modules :: TameModule(m)
  {
    var files := Files(radiusd, ctx, sites);
    if AllTame(files) {
      forall m | m in ctx.modules
        ensures TameModule(m)
      {
        forall path | MakesPath(m, path)
          ensures Tame(path)
        {
          FilesAre(radiusd, ctx, sites, path);
        }
        TameModuleExactly(m);
      }
    }
    if forall m | m in ctx.modules :: TameModule(m) {
      forall path | path in files
        ensures Tame(path)
      {
        FilesAre(radiusd, ctx, sites, path);
        if CorePath(path) {
          CoreTame(path);
        } else {
          var m :| m in ctx.modules && MakesPath(m, path);
          TameModuleExactly(m);
        }
      }
    }
  }

  /** From Render to the pod: through any ConfigMap made of the rendered files, the init script writes
      exactly their paths if and only if no enabled module has `__` (or `_/`) in its name, nor, if it
      brings data files, `_` at its end; and then every file has its own content. */
  lemma FilesReachThePod(radiusd: string, ctx: Context, sites: string,
                         files: map<string, string>, data: map<string, string>)
    requires ModulesPass(ctx.modules) && files == Files(radiusd, ctx, sites)
    requires FlatData(files, data)
    ensures RestoresPaths(files, data) <==> forall m | m in ctx.modules :: TameModule(m)
    ensures RestoresPaths(files, data) ==> KeepsContents(files, data)
  {
    AllTameExactly(radiusd, ctx, sites);
    PathsReturn(files, data);
    if AllTame(files) {
      ContentsReturn(files, data);
    }
  }

  // ---------------------------------------------------------------- keys of the ConfigMap

  const LISTS: seq<string> := ["authorize", "accounting"]

  lemma SlashFlattens()
    ensures Flatten("/") == "__"
  {
    assert "/"[1..] == "" && "__" + "" == "__";
  }

  lemma FlatEnabled(name: string)
    requires '/' !in name
    ensures Flatten(EnabledPath(name)) == "mods-enabled__" + name
  {
    SlashFlattens();
    hide Flatten;
    FlattenConcat("mods-enabled/", name);
    FlattenConcat("mods-enabled", "/");
    NothingToFlatten("mods-enabled");
    NothingToFlatten(name);
    assert "mods-enabled" + "/" == "mods-enabled/";
  }

  lemma FlatDataPath(name: string, list: string)
    requires '/' !in name && '/' !in list
    ensures Flatten(DataPath(name, list)) == "mods-config__" + (name + ("__" + list))
  {
    SlashFlattens();
    hide Flatten;
    FlattenConcat("mods-config/", name + ("/" + list));
    FlattenConcat("mods-config", "/");
    NothingToFlatten("mods-config");
    assert "mods-config" + "/" == "mods-config/";
    FlattenConcat(name, "/" + list);
    NothingToFlatten(name);
    FlattenConcat("/", list);
    NothingToFlatten(list);
  }

  lemma Between(before: string, middle: string, after: string)
    ensures var s := before + (middle + after);
            |s| == |before| + |middle| + |after| && s[|before|..|s| - |after|] == middle
  {
  }

  lemma FlatKeysApart(a: string, b: string, list: string, other: string)
    requires list in LISTS && other in LISTS
    ensures "mods-enabled__" + a == "mods-enabled__" + b ==> a == b
    ensures "mods-enabled__" + a != "mods-config__" + (b + ("__" + list))
    ensures "mods-config__" + (a + ("__" + list)) == "mods-config__" + (b + ("__" + other)) ==> a == b && list == other
  {
    assert ("mods-enabled__" + a)[14..] == a && ("mods-enabled__" + b)[14..] == b;
    var p, q := "mods-config__" + (a + ("__" + list)), "mods-config__" + (b + ("__" + other));
    assert ("mods-enabled__" + a)[5] == 'e' && ("mods-config__" + (b + ("__" + list)))[5] == 'c';
    assert list == LISTS[0] || list == LISTS[1];
    assert other == LISTS[0] || other == LISTS[1];
    assert p[|p| - 1] == list[|list| - 1] && q[|q| - 1] == other[|other| - 1];
    Between("mods-config__", a, "__" + list);
    Between("mods-config__", b, "__" + other);
  }

  lemma FlatModulePaths(m: ModuleConfig, path: string)
    requires MakesPath(m, path) && '/' !in m.name
    ensures path == EnabledPath(m.name) ==> Flatten(path) == "mods-enabled__" + m.name
    ensures forall list | list in LISTS && path == DataPath(m.name, list) ::
            Flatten(path) == "mods-config__" + (m.name + ("__" + list))
    ensures path == EnabledPath(m.name) || exists list :: list in LISTS && path == DataPath(m.name, list)
  {
    FlatEnabled(m.name);
    assert forall list | list in LISTS :: list == "authorize" || list == "accounting";
    assert '/' !in "authorize" && '/' !in "accounting";
    FlatDataPath(m.name, "authorize");
    FlatDataPath(m.name, "accounting");
  }

  lemma ModulePathsApart(m: ModuleConfig, p: string, n: ModuleConfig, q: string)
    requires MakesPath(m, p) && '/' !in m.name && MakesPath(n, q) && '/' !in n.name && Flatten(p) == Flatten(q)
    ensures p == q
  {
    FlatModulePaths(m, p);
    FlatModulePaths(n, q);
    forall list, other | list in LISTS && other in LISTS
      ensures "mods-enabled__" + m.name == "mods-enabled__" + n.name ==> m.name == n.name
      ensures "mods-enabled__" + m.name != "mods-config__" + (n.name + ("__" + list))
      ensures "mods-enabled__" + n.name != "mods-config__" + (m.name + ("__" + list))
      ensures "mods-config__" + (m.name + ("__" + list)) == "mods-config__" + (n.name + ("__" + other)) ==>
                m.name == n.name && list == other
    {
      FlatKeysApart(m.name, n.name, list, other);
      FlatKeysApart(n.name, m.name, list, other);
    }
    assert LISTS[0] in LISTS;
  }

  lemma FlatCore(path: string)
    requires CorePath(path)
    ensures Tame(path) && Flatten(path) != "" && Flatten(path)[0] == path[0] && path[0] in "crs"
  {
    CoreTame(path);
    assert "clients.conf"[0] == 'c' && "radiusd.conf"[0] == 'r' && ("sites-enabled/default")[0] == 's';
  }

  lemma FlatModuleFirst(m: ModuleConfig, path: string)
    requires MakesPath(m, path)
    ensures Flatten(path) != "" && Flatten(path)[0] == 'm'
  {
    assert path[0] == 'm' by {
      assert EnabledPath(m.name)[0] == 'm' && forall list :: DataPath(m.name, list)[0] == 'm';
    }
  }

  /** Of modules whose names hold no `/`, as all validated names do, no two files share a key of the
      ConfigMap, and so it holds the content of every file. */
  lemma KeysNeverCollide(radiusd: string, ctx: Context, sites: string,
                         files: map<string, string>, data: map<string, string>)
    requires ModulesPass(ctx.modules) && files == Files(radiusd, ctx, sites) && FlatData(files, data)
    requires forall m | m in ctx.modules && m.enabled :: '/' !in m.name
    ensures NoCollision(files) && KeepsContents(files, data)
  {
    forall p, q | p in files && q in files && Flatten(p) == Flatten(q)
      ensures p == q
    {
      FilesAre(radiusd, ctx, sites, p);
      FilesAre(radiusd, ctx, sites, q);
      if CorePath(p) && CorePath(q) {
        CoreTame(p);
        CoreTame(q);
        FlattenInjective(p, q);
      } else if CorePath(p) {
        FlatCore(p);
        var n :| n in ctx.modules && MakesPath(n, q);
        FlatModuleFirst(n, q);
      } else if CorePath(q) {
        FlatCore(q);
        var m :| m in ctx.modules && MakesPath(m, p);
        FlatModuleFirst(m, p);
      } else {
        var m :| m in ctx.modules && MakesPath(m, p);
        var n :| n in ctx.modules && MakesPath(n, q);
        ModulePathsApart(m, p, n, q);
      }
    }
    NoCollisionKeeps(files, data);
  }

  lemma ValidNamesHaveNoSlash(name: string)
    requires ValidIdentifier(name)
    ensures '/' !in name
  {
  }

  /** So the ConfigMap of every context that Render accepts holds all files, if no enabled module is raw. */
  lemma AcceptedFilesAreKept(radiusd: string, ctx: Context, sites: string, files: map<string, string>,
      data: map<string, string>)
    requires RenderCheck(ctx).None? && forall m | m in ctx.modules && m.enabled :: m.rawConfig == ""
    requires ModulesPass(ctx.modules) && files == Files(radiusd, ctx, sites) && FlatData(files, data)
    ensures NoCollision(files) && KeepsContents(files, data)
  {
    RendersExactly(ctx);
    forall m | m in ctx.modules && m.enabled
      ensures '/' !in m.name
    {
      assert ValidModule(m);
      ValidNamesHaveNoSlash(m.name);
    }
    KeysNeverCollide(radiusd, ctx, sites, files, data);
  }
}
