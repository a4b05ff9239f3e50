/** The clients of a cluster are projected twice: by the controller, for the ConfigMap, and by the
    init container, for the file that FreeRADIUS reads. */
module ClientViews {
  import opened Wrappers
  import opened Specs
  import opened Sanitize
  import opened FileRefs
  import opened RefExpansion
  import opened Clients
  import opened ClientMeaning
  import opened ClientSecrets
  import opened ClientOutcomes
  import opened Rendering
  import opened RenderingMeaning
  import opened ClusterReconciles

  lemma {:induction false} ProjectedSnoc(items: seq<RadiusClient>, last: RadiusClient, name: string)
    ensures Projected(items + [last], name) == Projected(items, name) + Projected([last], name)
  {
    if items == [] {
      assert items + [last] == [last];
    } else {
      var first := if items[0].clusterRef == name then [Stripped(items[0])] else [];
      assert (items + [last])[1..] == items[1..] + [last];
      ProjectedSnoc(items[1..], last, name);
      assert Projected(items, name) == first + Projected(items[1..], name);
      assert Projected(items + [last], name) == first + Projected(items[1..] + [last], name);
    }
  }

  /** Both views list the same clients in the same order; the init container's has no raw text. */
  lemma {:induction false} ViewsAlign(items: seq<RadiusClient>, name: string)
    ensures var clients := MatchingClients(items, name);
            && |Projected(items, name)| == |clients|
            && forall i | 0 <= i < |clients| :: Projected(items, name)[i] == ClientSpecs(clients)[i].(rawConfig := "")
  {
    if items != [] {
      var n := |items| - 1;
      assert items == items[..n] + [items[n]];
      ViewsAlign(items[..n], name);
      ProjectedSnoc(items[..n], items[n], name);
      assert [items[n]][1..] == [];
    }
  }

  /** The two views, and so the two texts, are the same exactly when no client of the cluster is raw. */
  lemma ViewsAgreeExactly(items: seq<RadiusClient>, name: string)
    ensures ClientSpecs(MatchingClients(items, name)) == Projected(items, name) <==>
            forall c | c in MatchingClients(items, name) :: c.rawConfig == ""
  {
    var clients := MatchingClients(items, name);
    ViewsAlign(items, name);
    if ClientSpecs(clients) == Projected(items, name) {
      forall c | c in clients
        ensures c.rawConfig == ""
      {
        var i :| 0 <= i < |clients| && clients[i] == c;
        assert ClientSpecs(clients)[i].rawConfig == c.rawConfig;
      }
    }
    if forall c | c in clients :: c.rawConfig == "" {
      forall i | 0 <= i < |clients|
        ensures ClientSpecs(clients)[i] == Projected(items, name)[i]
      {
        assert clients[i] in clients;
      }
    }
  }

  // ---------------------------------------------------------------- what the init container prints

  /** A client as the init container prints it. */
  function Stripped(c: RadiusClient): ClientSpec {
    ClientSpec(c.name, c.ip, c.secretRef, c.nasType, "")
  }

  lemma ProjectedAre(items: seq<RadiusClient>, name: string, spec: ClientSpec)
    ensures spec in Projected(items, name) <==> exists c :: c in MatchingClients(items, name) && spec == Stripped(c)
  {
    var clients := MatchingClients(items, name);
    ViewsAlign(items, name);
    if spec in Projected(items, name) {
      var i :| 0 <= i < |clients| && Projected(items, name)[i] == spec;
      assert spec == Stripped(clients[i]);
    }
    if c :| c in clients && spec == Stripped(c) {
      var i :| 0 <= i < |clients| && clients[i] == c;
      assert Projected(items, name)[i] == spec;
    }
  }

  /** The controller's check passes for the clients of the cluster. */
  predicate Checked(items: seq<RadiusClient>, name: string) {
    ClientsCheck(ClientSpecs(MatchingClients(items, name))).None?
  }

  /** The fields that the controller ignores, because the client is raw, would pass its check. */
  predicate RawFieldsValid(items: seq<RadiusClient>, name: string) {
    forall c | c in MatchingClients(items, name) && c.rawConfig != "" :: ValidClient(Stripped(c))
  }

  /** The controller validates the clients that it prints and the init container none: what the latter
      prints is valid exactly if the unused fields of every raw client are. */
  lemma ProjectedValidExactly(items: seq<RadiusClient>, name: string)
    requires Checked(items, name)
    ensures (forall spec | spec in Projected(items, name) :: ValidClient(spec)) <==> RawFieldsValid(items, name)
  {
    var clients := MatchingClients(items, name);
    ClientsCheckPasses(ClientSpecs(clients));
    forall c | c in clients
      ensures Stripped(c) in Projected(items, name)
      ensures c.rawConfig == "" ==> ValidClient(Stripped(c))
    {
      ProjectedAre(items, name, Stripped(c));
      var i :| 0 <= i < |clients| && clients[i] == c;
      assert ClientSpecs(clients)[i] in ClientSpecs(clients);
    }
    forall spec | spec in Projected(items, name)
      ensures exists c :: c in clients && spec == Stripped(c)
    {
      ProjectedAre(items, name, spec);
    }
  }

  /** What the API server grants references to Secrets: legal names and keys. */
  predicate LegalRefs(items: seq<RadiusClient>, name: string) {
    forall c | c in MatchingClients(items, name) :: LegalRef(c.secretRef)
  }

  lemma ProjectedTemplated(items: seq<RadiusClient>, name: string)
    requires Checked(items, name) && RawFieldsValid(items, name) && LegalRefs(items, name)
    ensures forall spec | spec in Projected(items, name) :: Templated(spec)
  {
    ProjectedValidExactly(items, name);
    forall spec | spec in Projected(items, name)
      ensures Templated(spec)
    {
      ProjectedAre(items, name, spec);
    }
  }

  /** The init container on the clients that are there: it ends with every secret in place exactly as
      the secrets settle, and the file that it then writes says which clients there are exactly if
      every secret is one line. */
  lemma WrittenFile(files: Files, items: seq<RadiusClient>, name: string, content: string)
    requires Checked(items, name) && RawFieldsValid(items, name) && LegalRefs(items, name)
    requires Ends(files, ClientsText(Projected(items, name)), content)
    ensures var specs := Projected(items, name);
            && (content == FileText(Some(files), specs) <==> ClientsSettle(files, specs))
            && (ClientsSettle(files, specs) ==>
                  (ParseClients(content) == Some(LOCAL + RowsOf(Some(files), specs)) <==>
                   forall spec | spec in specs :: OneLine(SecretOf(Some(files), spec))))
  {
    var specs := Projected(items, name);
    ProjectedTemplated(items, name);
    SecretsInPlaceExactly(files, specs);
    FileParses(Some(files), specs);
    hide *;
    OneEnd(files, ClientsText(specs), content, FileText(Some(files), specs));
  }

  /** And it ends at all, if the secrets hold markers only as whole references, exactly when expanding
      them does not circle. */
  lemma InitContainerEndsExactly(files: Files, contents: Contents, items: seq<RadiusClient>, name: string)
    requires Checked(items, name) && RawFieldsValid(items, name) && LegalRefs(items, name)
    requires Describes(contents, files)
    requires forall c | c in MatchingClients(items, name) ::
               files(SecretPath(c.secretRef)).Some? <==> SecretPath(c.secretRef) in contents
    ensures Terminates(files, ClientsText(Projected(items, name))) <==>
            !Expand(contents, {}, ClientPieces(Projected(items, name))).Circles?
  {
    var specs := Projected(items, name);
    ProjectedTemplated(items, name);
    hide Describes, Expand, Terminates, Templated;
    forall spec | spec in specs
      ensures SecretReadable(files, spec) <==> SecretPath(spec.secretRef) in contents
    {
      ProjectedAre(items, name, spec);
    }
    ClientLoopEndsExactly(files, contents, specs);
  }

  lemma OneEnd(files: Files, content: string, result: string, other: string)
    requires Ends(files, content, result)
    ensures Ends(files, content, other) <==> result == other
  {
    hide Step;
    var turns: nat :| EndsWith(files, content, turns, result);
    if others: nat :| EndsWith(files, content, others, other) {
      OneResult(files, content, turns, result, others, other);
    }
  }

  lemma ReadTypeIsOneLine(cs: seq<ClientSpec>, i: nat)
    requires i < |cs| && ParseClients(ClientsText(cs)) == Some(LOCAL + RowsOf(None, cs))
    ensures OneLine(cs[i].nasType)
  {
    hide ParseClients, ClientsText, SecretOf;
    ParsedIsOneLine(ClientsText(cs));
    assert RowsOf(None, cs)[i] in LOCAL + RowsOf(None, cs);
  }

  lemma OneClient(c: RadiusClient)
    ensures MatchingClients([c], c.clusterRef) == [c] && Projected([c], c.clusterRef) == [Stripped(c)]
  {
    assert [c][..0] == [] && [c][1..] == [];
  }

  lemma RawPassesCheck(c: RadiusClient)
    requires c.rawConfig != ""
    ensures Checked([c], c.clusterRef)
  {
    OneClient(c);
    var specs := ClientSpecs([c]);
    assert ClientsCheck(specs[1..]).None?;
  }

  /** A raw client that passes the controller's check, and whose block in the init container's file is
      none that the parser reads back. */
  lemma RawFieldsAreMisread()
    ensures var c := RadiusClient("a", "cluster", "10.0.0.1", SecretRef("s", "k"), "one\ntwo", "client raw {}");
            && Checked([c], "cluster") && !RawFieldsValid([c], "cluster")
            && ParseClients(ClientsText(Projected([c], "cluster"))) !=
               Some(LOCAL + RowsOf(None, Projected([c], "cluster")))
  {
    var c := RadiusClient("a", "cluster", "10.0.0.1", SecretRef("s", "k"), "one\ntwo", "client raw {}");
    assert c.nasType[3] == '\n' && c.nasType != "" && c.rawConfig != "" && !IsIdentifierChar('\n');
    hide ParseClients, ClientsText, MatchingClients, Projected, Checked, RowsOf;
    OneClient(c);
    RawPassesCheck(c);
    if ParseClients(ClientsText([Stripped(c)])) == Some(LOCAL + RowsOf(None, [Stripped(c)])) {
      ReadTypeIsOneLine([Stripped(c)], 0);
    }
    assert c in [c] && !ValidIdentifier(c.nasType);
  }
}
