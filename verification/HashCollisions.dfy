/** Configurations that Render makes and that hash alike, whatever the digest. */
module HashCollisions {
  import opened Wrappers
  import opened Specs
  import opened Clients
  import opened Rendering
  import opened RenderingMeaning
  import opened ConfigHash

  /** A module of which only the raw text is used. */
  function RawModule(name: string, text: string): ModuleConfig {
    ModuleConfig(name, "", true, None, None, None, None, None, None, text)
  }

  lemma RawPasses(ctx: Context, m: ModuleConfig)
    requires m.rawConfig != "" && m.files.None? && ctx.modules == []
    ensures RenderCheck(ctx.(modules := [m])) == RenderCheck(ctx)
  {
    var modules := [m];
    assert modules[0] == m && modules[1..] == [];
    assert FieldsCheck(modules) == FieldsCheck([]) && ModulesCheck(modules) == ModulesCheck([]);
  }

  lemma RawFiles(radiusd: string, ctx: Context, sites: string, name: string, text: string)
    requires text != ""
    ensures var m := RawModule(name, text);
            && ModulesPass([m])
            && Files(radiusd, ctx.(modules := [m]), sites) ==
               map["clients.conf" := ClientsText(ctx.clients), "radiusd.conf" := radiusd,
                   EnabledPath(name) := text, "sites-enabled/default" := sites]
  {
    var m := RawModule(name, text);
    assert [m][..0] == [] && ModulesFiles([]) == map[];
    assert ModuleFiles(m) == map[EnabledPath(name) := text];
    assert ModulesFiles([m]) == map[EnabledPath(name) := text];
    FirstCharacters(name);
  }

  lemma FirstCharacters(name: string)
    ensures "clients.conf"[0] == 'c' && EnabledPath(name)[0] == 'm' && "radiusd.conf"[0] == 'r' &&
            ("sites-enabled/default")[0] == 's'
  {
  }

  lemma FourKeys(name: string, keys: set<string>)
    requires keys == {"clients.conf", EnabledPath(name), "radiusd.conf", "sites-enabled/default"}
    ensures AscendingKeys(keys) == ["clients.conf", EnabledPath(name), "radiusd.conf", "sites-enabled/default"]
  {
    var ks := ["clients.conf", EnabledPath(name), "radiusd.conf", "sites-enabled/default"];
    FirstCharacters(name);
    assert Ascending(ks);
    assert ks[0] in ks && ks[1] in ks && ks[2] in ks && ks[3] in ks;
    AscendingUnique(AscendingKeys(keys), ks);
  }

  lemma FourFiles(files: map<string, string>, k0: string, k1: string, k2: string, k3: string)
    requires k0 in files && k1 in files && k2 in files && k3 in files
    ensures FileStream([k0, k1, k2, k3], files) ==
            (((k0 + files[k0]) + (k1 + files[k1])) + (k2 + files[k2])) + (k3 + files[k3])
  {
    var ks := [k0, k1, k2, k3];
    assert ks[..3] == [k0, k1, k2] && ks[..3][..2] == [k0, k1] && [k0, k1][..1] == [k0] && [k0][..0] == [];
    assert [k0, k1, k2][..2] == [k0, k1];
    assert FileStream([k0], files) == "" + (k0 + files[k0]) == k0 + files[k0];
    assert FileStream([k0, k1], files) == (k0 + files[k0]) + (k1 + files[k1]);
    assert FileStream([k0, k1, k2], files) == ((k0 + files[k0]) + (k1 + files[k1])) + (k2 + files[k2]);
  }

  lemma FourContents(name: string, c0: string, c1: string, c2: string, c3: string)
    ensures var files := map["clients.conf" := c0, "radiusd.conf" := c2, EnabledPath(name) := c1,
                             "sites-enabled/default" := c3];
            && files.Keys == {"clients.conf", EnabledPath(name), "radiusd.conf", "sites-enabled/default"}
            && files["clients.conf"] == c0 && files[EnabledPath(name)] == c1
            && files["radiusd.conf"] == c2 && files["sites-enabled/default"] == c3
  {
    FirstCharacters(name);
    hide EnabledPath;
  }

  lemma StreamIs(radiusd: string, ctx: Context, sites: string, name: string, text: string, cs: seq<RadiusClient>)
    requires text != "" && ModulesPass([RawModule(name, text)])
    ensures ConfigStream(Files(radiusd, ctx.(modules := [RawModule(name, text)]), sites), cs) ==
            (((("clients.conf" + ClientsText(ctx.clients)) + (EnabledPath(name) + text)) + ("radiusd.conf" + radiusd)) +
             (("sites-enabled/default") + sites)) + ClientStream(cs)
  {
    var files := Files(radiusd, ctx.(modules := [RawModule(name, text)]), sites);
    RawFiles(radiusd, ctx, sites, name, text);
    FourContents(name, ClientsText(ctx.clients), text, radiusd, sites);
    hide Files, ClientsText, ClientStream, FileStream, AscendingKeys, EnabledPath, ModulesPass;
    FourKeys(name, files.Keys);
    FourFiles(files, "clients.conf", EnabledPath(name), "radiusd.conf", "sites-enabled/default");
  }

  lemma FilesDiffer(radiusd: string, ctx: Context, sites: string, name: string, text: string, other: string,
      otherText: string)
    requires text != "" && otherText != "" && name != other
    requires ModulesPass([RawModule(name, text)]) && ModulesPass([RawModule(other, otherText)])
    ensures Files(radiusd, ctx.(modules := [RawModule(name, text)]), sites) !=
            Files(radiusd, ctx.(modules := [RawModule(other, otherText)]), sites)
  {
    RawFiles(radiusd, ctx, sites, name, text);
    RawFiles(radiusd, ctx, sites, other, otherText);
    FirstCharacters(name);
    PathsApart(name, other, "authorize", "authorize");
    hide Files;
    assert EnabledPath(name) in Files(radiusd, ctx.(modules := [RawModule(name, text)]), sites);
    assert EnabledPath(name) !in Files(radiusd, ctx.(modules := [RawModule(other, otherText)]), sites);
  }

  lemma SameJoint(name: string, x: string, text: string)
    ensures EnabledPath(name) + (x + text) == EnabledPath(name + x) + text
    ensures x != "" ==> name != name + x
  {
    assert x != "" ==> |name| != |name + x|;
  }

  lemma RawModulesPass(name: string, text: string)
    requires text != ""
    ensures ModulesPass([RawModule(name, text)])
  {
  }

  /** Where the stream does not tell configurations apart: a raw module and another one whose name is
      longer by the beginning of the first one's text, all else being equal. Render takes both, their
      files differ, and pods do not roll from one to the other. */
  lemma RenderedStreamsCollide(radiusd: string, ctx: Context, sites: string, name: string, x: string, text: string,
      cs: seq<RadiusClient>)
    requires ctx.modules == [] && x != "" && text != ""
    ensures var first, second := RawModule(name, x + text), RawModule(name + x, text);
            var before, after := ctx.(modules := [first]), ctx.(modules := [second]);
            && RenderCheck(before) == RenderCheck(after) == RenderCheck(ctx)
            && ModulesPass([first]) && ModulesPass([second])
            && Files(radiusd, before, sites) != Files(radiusd, after, sites)
            && ConfigStream(Files(radiusd, before, sites), cs) == ConfigStream(Files(radiusd, after, sites), cs)
  {
    RawPasses(ctx, RawModule(name, x + text));
    RawPasses(ctx, RawModule(name + x, text));
    RawModulesPass(name, x + text);
    RawModulesPass(name + x, text);
    hide *;
    SameJoint(name, x, text);
    FilesDiffer(radiusd, ctx, sites, name, x + text, name + x, text);
    StreamIs(radiusd, ctx, sites, name, x + text, cs);
    StreamIs(radiusd, ctx, sites, name + x, text, cs);
  }
}
