/** What a client with raw text leaves in clients.conf: the text itself, in the client's place, and,
    where it can be read, the clients that it names. */
module RawClients {
  import opened Wrappers
  import opened Text
  import opened Specs
  import opened FileRefs
  import opened Unlang
  import opened SiteMeaning
  import opened Clients
  import opened ClientMeaning

  // ---------------------------------------------------------------- texts that can be read

  /** What each raw text is read as. */
  type RowReading = string -> seq<Row>

  function RowsBefore(rows: seq<Row>, others: Option<seq<Row>>): Option<seq<Row>> {
    if others.None? then None else Some(rows + others.value)
  }

  /** In front of an empty line, whatever follows, the text is read as these rows. */
  ghost predicate ReadsRows(text: string, rows: seq<Row>) {
    forall rest :: ParseClients(text + ("\n\n" + rest)) == RowsBefore(rows, ParseClients(rest))
  }

  /** A raw client whose text is read as the reading says, or a templated one. */
  ghost predicate PrintableClient(raw: RowReading, c: ClientSpec) {
    if c.rawConfig != "" then ReadsRows(c.rawConfig, raw(c.rawConfig)) else ClientMeaning.Templated(c)
  }

  function RowsFor(raw: RowReading, files: Option<Files>, c: ClientSpec): seq<Row> {
    if c.rawConfig != "" then raw(c.rawConfig) else [RowOf(files, c)]
  }

  function AllRows(raw: RowReading, files: Option<Files>, cs: seq<ClientSpec>): seq<Row> {
    if cs == [] then [] else RowsFor(raw, files, cs[0]) + AllRows(raw, files, cs[1..])
  }

  /** A block that the template could print is read as its row. */
  lemma BlockReads(r: Row)
    requires RowPlain(r)
    ensures var end := FieldText("nastype", r.nasType) + "}";
            var block := BlockHead(r.name, r.directive, r.ip) + (r.secret + ("\n" + end));
            ReadsRows(block, [r])
  {
    var head, field := BlockHead(r.name, r.directive, r.ip), FieldText("nastype", r.nasType);
    var block := head + (r.secret + ("\n" + (field + "}")));
    forall rest
      ensures ParseClients(block + ("\n\n" + rest)) == RowsBefore([r], ParseClients(rest))
    {
      BareBlock(r, rest);
      RowFollowed(r, rest);
    }
  }

  lemma BareBlock(r: Row, rest: string)
    ensures (BlockHead(r.name, r.directive, r.ip) + (r.secret + ("\n" + (FieldText("nastype", r.nasType) + "}")))) +
            ("\n\n" + rest) == RowText(r) + rest
  {
    var head, field := BlockHead(r.name, r.directive, r.ip), FieldText("nastype", r.nasType);
    Push5(head, r.secret, "\n", field, "}", "\n\n" + rest);
    assert "}" + ("\n\n" + rest) == "}\n" + ("\n" + rest);
    Push4("\n", field, "}\n", "\n", rest);
    Push3(head, r.secret, BlockTail(r.nasType), rest);
  }

  lemma RowFollowed(r: Row, rest: string)
    requires RowPlain(r)
    ensures ParseClients(RowText(r) + rest) == RowsBefore([r], ParseClients(rest))
  {
    RowParses(r, rest);
    var s := RowText(r) + rest;
    assert Skip(s) == s;
    IndentsBlank();
    BlankBeforeClients("\n", rest);
  }

  lemma ClientFollowed(raw: RowReading, files: Option<Files>, c: ClientSpec, rest: string)
    requires PrintableClient(raw, c) && (c.rawConfig == "" ==> OneLine(SecretOf(files, c)))
    ensures ParseClients(ClientText(c, SecretOf(files, c)) + rest) ==
            RowsBefore(RowsFor(raw, files, c), ParseClients(rest))
  {
    hide ParseClients, SecretOf, BlockText;
    if c.rawConfig != "" {
      Assoc(c.rawConfig, "\n\n", rest);
    } else {
      RowOfPlain(files, c);
      RowFollowed(RowOf(files, c), rest);
    }
  }

  lemma {:induction false} BlocksParse(raw: RowReading, files: Option<Files>, cs: seq<ClientSpec>)
    requires forall c | c in cs :: PrintableClient(raw, c) && (c.rawConfig == "" ==> OneLine(SecretOf(files, c)))
    ensures ParseClients(BlocksText(files, cs) + "\n") == Some(AllRows(raw, files, cs))
  {
    if cs == [] {
      IndentsBlank();
      BlankBeforeClients("\n", "");
      assert BlocksText(files, cs) + "\n" == "\n" + "";
    } else {
      assert cs[0] in cs;
      BlocksParse(raw, files, cs[1..]);
      hide ParseClients, SecretOf, ClientText, RowsFor;
      Assoc(ClientText(cs[0], SecretOf(files, cs[0])), BlocksText(files, cs[1..]), "\n");
      ClientFollowed(raw, files, cs[0], BlocksText(files, cs[1..]) + "\n");
    }
  }

  lemma {:induction false} RowsInAll(raw: RowReading, files: Option<Files>, cs: seq<ClientSpec>, c: ClientSpec)
    requires c in cs && c.rawConfig == ""
    ensures RowOf(files, c) in AllRows(raw, files, cs)
  {
    if c == cs[0] {
      assert RowOf(files, c) in RowsFor(raw, files, c);
    } else {
      assert c in cs[1..];
      RowsInAll(raw, files, cs[1..], c);
    }
  }

  /** The file of templated clients and raw ones whose text can be read, exactly: it names the two local
      clients and then, in order, each templated client and what each raw text names, if and only if
      the secret of every templated client is one line. */
  lemma FileWithRawParses(raw: RowReading, files: Option<Files>, cs: seq<ClientSpec>)
    requires forall c | c in cs :: PrintableClient(raw, c)
    ensures ParseClients(FileText(files, cs)) == Some(LOCAL + AllRows(raw, files, cs)) <==>
            forall c | c in cs && c.rawConfig == "" :: OneLine(SecretOf(files, c))
  {
    hide ParseClients, BlocksText, SecretOf;
    if ParseClients(FileText(files, cs)) == Some(LOCAL + AllRows(raw, files, cs)) {
      ParsedIsOneLine(FileText(files, cs));
      forall c | c in cs && c.rawConfig == ""
        ensures OneLine(SecretOf(files, c))
      {
        RowsInAll(raw, files, cs, c);
        assert RowOf(files, c) in LOCAL + AllRows(raw, files, cs);
      }
    }
    if forall c | c in cs && c.rawConfig == "" :: OneLine(SecretOf(files, c)) {
      BlocksParse(raw, files, cs);
      PreambleParses(BlocksText(files, cs) + "\n", AllRows(raw, files, cs));
    }
  }

  // ---------------------------------------------------------------- any text

  /** Whatever raw text is put in this place, it stands in the file between these two texts. */
  ghost predicate ClientPlace(cs: seq<ClientSpec>, i: nat, before: string, after: string)
    requires i < |cs|
  {
    forall text | text != "" :: ClientsText(cs[i := cs[i].(rawConfig := text)]) == before + (text + ("\n\n" + after))
  }

  lemma {:induction false} BlocksConcat(files: Option<Files>, a: seq<ClientSpec>, b: seq<ClientSpec>)
    ensures BlocksText(files, a + b) == BlocksText(files, a) + BlocksText(files, b)
    decreases |a|
  {
    hide SecretOf, ClientText;
    if a == [] {
      assert a + b == b;
    } else {
      assert (a + b)[1..] == a[1..] + b;
      BlocksConcat(files, a[1..], b);
      Assoc(ClientText(a[0], SecretOf(files, a[0])), BlocksText(files, a[1..]), BlocksText(files, b));
    }
  }

  lemma TextAmongBlocks(cs: seq<ClientSpec>, i: nat, text: string)
    requires i < |cs| && text != ""
    ensures BlocksText(None, cs[i := cs[i].(rawConfig := text)]) ==
            BlocksText(None, cs[..i]) + (text + ("\n\n" + BlocksText(None, cs[i + 1..])))
  {
    hide SecretOf, BlockText;
    var c := cs[i].(rawConfig := text);
    var others := BlocksText(None, cs[i + 1..]);
    assert cs[i := c] == cs[..i] + ([c] + cs[i + 1..]);
    BlocksConcat(None, cs[..i], [c] + cs[i + 1..]);
    assert ([c] + cs[i + 1..])[1..] == cs[i + 1..];
    assert BlocksText(None, [c] + cs[i + 1..]) == (text + "\n\n") + others;
    Assoc(text, "\n\n", others);
  }

  lemma TextAmongClients(cs: seq<ClientSpec>, i: nat, text: string)
    requires i < |cs| && text != ""
    ensures ClientsText(cs[i := cs[i].(rawConfig := text)]) ==
            (Preamble() + BlocksText(None, cs[..i])) + (text + ("\n\n" + (BlocksText(None, cs[i + 1..]) + "\n")))
  {
    hide Preamble, BlocksText;
    var others := BlocksText(None, cs[i + 1..]);
    TextAmongBlocks(cs, i, text);
    Assoc(BlocksText(None, cs[..i]), text + ("\n\n" + others), "\n");
    Push3(text, "\n\n", others, "\n");
    Assoc(Preamble(), BlocksText(None, cs[..i]), text + ("\n\n" + (others + "\n")));
  }

  /** Raw text stands in the file unchanged, in a place that does not depend on it. */
  lemma RawClientStands(cs: seq<ClientSpec>, i: nat)
    requires i < |cs|
    ensures exists before, after :: ClientPlace(cs, i, before, after)
  {
    hide ClientsText, BlocksText, Preamble;
    var before := Preamble() + BlocksText(None, cs[..i]);
    var after := BlocksText(None, cs[i + 1..]) + "\n";
    forall text | text != ""
      ensures ClientsText(cs[i := cs[i].(rawConfig := text)]) == before + (text + ("\n\n" + after))
    {
      TextAmongClients(cs, i, text);
    }
    assert ClientPlace(cs, i, before, after);
  }
}
