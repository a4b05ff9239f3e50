/** What clients.conf says: parsing it gives back the clients, before and after the init container
    has put the secrets in. */
module ClientMeaning {
  import opened Wrappers
  import opened Text
  import opened Specs
  import opened Sanitize
  import opened FileRefs
  import opened Unlang
  import opened Sites
  import opened SiteMeaning
  import opened Clients

  // ---------------------------------------------------------------- parsing blocks

  predicate OneLine(s: string) {
    '\n' !in s
  }

  predicate RowPlain(r: Row) {
    IsName(r.name) && IsName(r.directive) && OneLine(r.ip) && OneLine(r.secret) && OneLine(r.nasType)
  }

  function RowText(r: Row): string {
    BlockText(r.name, r.directive, r.ip, r.secret, r.nasType)
  }

  function RowsText(rows: seq<Row>): string {
    if rows == [] then "" else RowText(rows[0]) + RowsText(rows[1..])
  }

  lemma FieldPeels(key: string, value: string, rest: string)
    ensures FieldText(key, value) + rest == FOUR + (key + (" = " + (value + ("\n" + rest))))
  {
    Push5(FOUR, key, " = ", value, "\n", rest);
  }

  lemma FieldParses(blanks: string, key: string, value: string, rest: string)
    requires AllBlank(blanks) && IsName(key) && OneLine(value)
    ensures ParseField(blanks + (key + (" = " + (value + ("\n" + rest))))) == Some((key, value, rest))
  {
    var line := key + (" = " + (value + ("\n" + rest)));
    assert key[0] in key && line[0] == key[0];
    SkipTo(blanks, line);
    TakeWhileStops(key, " = " + (value + ("\n" + rest)), IsIdentifierChar);
    StripAppend(" = ", value + ("\n" + rest));
    TakeWhileStops(value, "\n" + rest, NotNewline);
    StripAppend("\n", rest);
  }

  function AfterAddress(r: Row, rest: string): string {
    FOUR + ("secret" + (" = " + (r.secret + ("\n" + AfterSecret(r, rest)))))
  }

  function AfterSecret(r: Row, rest: string): string {
    FOUR + ("nastype" + (" = " + (r.nasType + ("\n" + ("}\n" + ("\n" + rest))))))
  }

  lemma RowPeels(r: Row, rest: string)
    ensures RowText(r) + rest ==
            "client " + (r.name + (" {\n" + (FOUR + (r.directive + (" = " + (r.ip + ("\n" + AfterAddress(r, rest))))))))
  {
    var tail := r.secret + BlockTail(r.nasType) + rest;
    HeadPeels(r, tail);
    TailPeels(r, rest);
    Assoc(BlockHead(r.name, r.directive, r.ip), r.secret + BlockTail(r.nasType), rest);
    Assoc(r.secret, BlockTail(r.nasType), rest);
  }

  lemma HeadPeels(r: Row, tail: string)
    ensures BlockHead(r.name, r.directive, r.ip) + tail ==
            "client " + (r.name + (" {\n" +
              (FOUR + (r.directive + (" = " + (r.ip + ("\n" + (FOUR + ("secret" + (" = " + tail))))))))))
  {
    Push6("client ", r.name, " {\n", FieldText(r.directive, r.ip), FOUR, "secret" + " = ", tail);
    Assoc("secret", " = ", tail);
    FieldPeels(r.directive, r.ip, FOUR + ("secret" + (" = " + tail)));
  }

  lemma TailPeels(r: Row, rest: string)
    ensures BlockTail(r.nasType) + rest == "\n" + AfterSecret(r, rest)
  {
    Push4("\n", FieldText("nastype", r.nasType), "}\n", "\n", rest);
    FieldPeels("nastype", r.nasType, "}\n" + ("\n" + rest));
  }

  lemma SecretParses(r: Row, rest: string)
    requires RowPlain(r)
    ensures ParseField(AfterAddress(r, rest)) == Some(("secret", r.secret, AfterSecret(r, rest)))
    ensures ParseField(AfterSecret(r, rest)) == Some(("nastype", r.nasType, "}\n" + ("\n" + rest)))
  {
    IndentsBlank();
    FieldParses(FOUR, "secret", r.secret, AfterSecret(r, rest));
    FieldParses(FOUR, "nastype", r.nasType, "}\n" + ("\n" + rest));
  }

  lemma AddressParses(r: Row, rest: string)
    requires RowPlain(r)
    ensures ParseField(FOUR + (r.directive + (" = " + (r.ip + ("\n" + AfterAddress(r, rest)))))) ==
            Some((r.directive, r.ip, AfterAddress(r, rest)))
  {
    IndentsBlank();
    FieldParses(FOUR, r.directive, r.ip, AfterAddress(r, rest));
  }

  lemma RowCloses(rest: string)
    ensures Strip(Skip("}\n" + ("\n" + rest)), "}\n") == Some("\n" + rest)
  {
    IndentsBlank();
    ClosingLine("", "\n" + rest);
    assert "" + ("}\n" + ("\n" + rest)) == "}\n" + ("\n" + rest);
  }

  lemma RowParses(r: Row, rest: string)
    requires RowPlain(r)
    ensures ParseBlock(RowText(r) + rest) == Some((r, "\n" + rest))
    ensures Starts(RowText(r) + rest)
  {
    var fields := FOUR + (r.directive + (" = " + (r.ip + ("\n" + AfterAddress(r, rest)))));
    RowPeels(r, rest);
    StripAppend("client ", r.name + (" {\n" + fields));
    OpeningParses(r.name, fields);
    AddressParses(r, rest);
    SecretParses(r, rest);
    RowCloses(rest);
    assert ("client " + (r.name + (" {\n" + fields)))[0] == 'c';
  }

  lemma BlankBeforeClients(blanks: string, s: string)
    requires AllBlank(blanks)
    ensures ParseClients(blanks + s) == ParseClients(s)
  {
    SkipBlanks(blanks, s);
  }

  lemma RowStep(r: Row, rest: string, others: seq<Row>)
    requires RowPlain(r) && ParseClients(rest) == Some(others)
    ensures ParseClients(RowText(r) + rest) == Some([r] + others)
  {
    RowParses(r, rest);
    var s := RowText(r) + rest;
    assert Skip(s) == s;
    IndentsBlank();
    BlankBeforeClients("\n", rest);
  }

  lemma {:induction false} RowsParse(rows: seq<Row>)
    requires forall r | r in rows :: RowPlain(r)
    ensures ParseClients(RowsText(rows) + "\n") == Some(rows)
  {
    if rows == [] {
      IndentsBlank();
      BlankBeforeClients("\n", "");
      assert RowsText(rows) + "\n" == "\n" + "";
    } else {
      assert rows[0] in rows;
      RowsParse(rows[1..]);
      Assoc(RowText(rows[0]), RowsText(rows[1..]), "\n");
      RowStep(rows[0], RowsText(rows[1..]) + "\n", rows[1..]);
      assert rows == [rows[0]] + rows[1..];
    }
  }

  // ---------------------------------------------------------------- the rows of the clients

  const LOCAL: seq<Row> := [
    Row("localhost", "ipaddr", "127.0.0.1", "testing123", "other"),
    Row("localhost_v6", "ipv6addr", "::1", "testing123", "other")]

  function RowOf(files: Option<Files>, c: ClientSpec): Row {
    Row(c.name, IpDirective(c.ip), c.ip, SecretOf(files, c), c.nasType)
  }

  function RowsOf(files: Option<Files>, cs: seq<ClientSpec>): (r: seq<Row>)
    ensures |r| == |cs| && forall i | 0 <= i < |cs| :: r[i] == RowOf(files, cs[i])
  {
    if cs == [] then [] else [RowOf(files, cs[0])] + RowsOf(files, cs[1..])
  }

  /** The row of a client, but for its secret: the address decides the directive. */
  predicate RowSays(row: Row, c: ClientSpec) {
    && row.name == c.name && row.ip == c.ip && row.nasType == c.nasType
    && row.directive == if ':' in c.ip then "ipv6addr" else "ipaddr"
  }

  /** What the API server grants the names and keys of Secrets. */
  predicate LegalRef(ref: SecretRef) {
    '}' !in ref.name && '}' !in ref.key && OneLine(ref.name) && OneLine(ref.key)
  }

  /** What the API server and Render's validation grant templated clients. */
  predicate Templated(c: ClientSpec) {
    c.rawConfig == "" && ValidClient(c) && LegalRef(c.secretRef)
  }

  lemma {:induction false} BlocksAreRows(files: Option<Files>, cs: seq<ClientSpec>)
    requires forall c | c in cs :: c.rawConfig == ""
    ensures BlocksText(files, cs) == RowsText(RowsOf(files, cs))
  {
    if cs != [] {
      assert cs[0] in cs;
      BlocksAreRows(files, cs[1..]);
    }
  }

  lemma RowOfPlain(files: Option<Files>, c: ClientSpec)
    requires Templated(c) && OneLine(SecretOf(files, c))
    ensures RowPlain(RowOf(files, c))
  {
    assert IsName(c.name) by { assert c.name[0] in c.name; }
    assert IsName("ipaddr") && IsName("ipv6addr");
  }

  lemma LocalPlain()
    ensures RowPlain(LOCAL[0]) && RowPlain(LOCAL[1])
  {
    LocalNames();
    LocalValues();
    hide IsName, OneLine;
  }

  lemma LocalNames()
    ensures IsName("localhost") && IsName("localhost_v6") && IsName("ipaddr") && IsName("ipv6addr")
  {
  }

  lemma LocalValues()
    ensures OneLine("127.0.0.1") && OneLine("::1") && OneLine("testing123") && OneLine("other")
  {
  }

  lemma TwoRowsParse(a: Row, b: Row, body: string, rows: seq<Row>)
    requires RowPlain(a) && RowPlain(b)
    requires ParseClients(body) == Some(rows)
    ensures ParseClients((RowText(a) + RowText(b)) + body) == Some([a, b] + rows)
  {
    var first, second := RowText(a), RowText(b);
    RowStep(b, body, rows);
    RowStep(a, second + body, [b] + rows);
    Assoc(first, second, body);
    PairOnto(a, b, rows);
  }

  lemma PairOnto(a: Row, b: Row, rows: seq<Row>)
    ensures [a] + ([b] + rows) == [a, b] + rows
  {
  }

  lemma PreambleParses(body: string, rows: seq<Row>)
    requires ParseClients(body) == Some(rows)
    ensures ParseClients(Preamble() + body) == Some(LOCAL + rows)
  {
    LocalPlain();
    TwoRowsParse(LOCAL[0], LOCAL[1], body, rows);
    assert LOCAL == [LOCAL[0], LOCAL[1]];
    PreambleSkipped(RowText(LOCAL[0]) + RowText(LOCAL[1]), body);
  }

  lemma HeaderPeels(blocks: string, body: string)
    ensures ClientsHeader() + ("\n" + (WarningLine() + ("\n" + ("\n" + blocks)))) + body ==
            ClientsHeader() + ("\n" + (WarningLine() + ("\n" + ("\n" + (blocks + body)))))
  {
    Push6(ClientsHeader(), "\n", WarningLine(), "\n", "\n", blocks, body);
  }

  lemma PreambleSkipped(blocks: string, body: string)
    ensures ParseClients(ClientsHeader() + ("\n" + (WarningLine() + ("\n" + ("\n" + blocks)))) + body) ==
            ParseClients(blocks + body)
  {
    HeaderPeels(blocks, body);
    ClientsHeaderPlain();
    WarningPlain();
    TwoCommentsSkipped(ClientsHeader(), WarningLine(), blocks + body);
  }

  lemma ClientsHeaderPlain()
    ensures ClientsHeader() != "" && ClientsHeader()[0] == '#' && '\n' !in ClientsHeader()
  {
    assert '\n' !in "# clients.conf — " && '\n' !in "generated by " && '\n' !in "freeradius-operator";
  }

  lemma FieldIsOneLine(s: string)
    ensures ParseField(s).Some? ==> OneLine(ParseField(s).value.1)
  {
  }

  lemma BlockIsOneLine(s: string)
    ensures ParseBlock(s).Some? ==> OneLine(ParseBlock(s).value.0.secret) && OneLine(ParseBlock(s).value.0.nasType)
  {
    var keyword := Strip(s, "client ");
    if keyword.Some? && ParseOpening(keyword.value).Some? {
      var address := ParseField(ParseOpening(keyword.value).value.1);
      if address.Some? {
        FieldIsOneLine(address.value.2);
        if ParseField(address.value.2).Some? {
          FieldIsOneLine(ParseField(address.value.2).value.2);
        }
      }
    }
  }

  /** No parsed secret and no parsed type goes over a line. */
  lemma {:induction false} ParsedIsOneLine(s: string)
    requires ParseClients(s).Some?
    ensures forall r | r in ParseClients(s).value :: OneLine(r.secret) && OneLine(r.nasType)
    decreases |s|
  {
    var t := Skip(s);
    if t != "" {
      BlockIsOneLine(t);
      ParsedIsOneLine(ParseBlock(t).value.1);
    }
  }

  lemma SecretsOfRows(files: Option<Files>, cs: seq<ClientSpec>)
    requires forall r | r in LOCAL + RowsOf(files, cs) :: OneLine(r.secret)
    ensures forall c | c in cs :: OneLine(SecretOf(files, c))
  {
    forall c | c in cs
      ensures OneLine(SecretOf(files, c))
    {
      var i :| 0 <= i < |cs| && cs[i] == c;
      assert RowsOf(files, cs)[i] in RowsOf(files, cs);
      assert RowOf(files, c) in LOCAL + RowsOf(files, cs);
    }
  }

  lemma OneLineFileParses(files: Option<Files>, cs: seq<ClientSpec>)
    requires forall c | c in cs :: Templated(c) && OneLine(SecretOf(files, c))
    ensures ParseClients(FileText(files, cs)) == Some(LOCAL + RowsOf(files, cs))
  {
    forall r | r in RowsOf(files, cs)
      ensures RowPlain(r)
    {
      var i :| 0 <= i < |cs| && RowsOf(files, cs)[i] == r;
      assert cs[i] in cs;
      RowOfPlain(files, cs[i]);
    }
    BlocksAreRows(files, cs);
    RowsParse(RowsOf(files, cs));
    PreambleParses(BlocksText(files, cs) + "\n", RowsOf(files, cs));
  }

  /** Printer and parser, exactly: the file names the two local clients and then the given ones, in
      order, each with its address, its secret and its type, if and only if every secret is one line. */
  lemma FileParses(files: Option<Files>, cs: seq<ClientSpec>)
    requires forall c | c in cs :: Templated(c)
    ensures ParseClients(FileText(files, cs)) == Some(LOCAL + RowsOf(files, cs)) <==>
            forall c | c in cs :: OneLine(SecretOf(files, c))
    ensures forall i | 0 <= i < |cs| :: RowSays(RowsOf(files, cs)[i], cs[i])
  {
    if ParseClients(FileText(files, cs)) == Some(LOCAL + RowsOf(files, cs)) {
      ParsedIsOneLine(FileText(files, cs));
      SecretsOfRows(files, cs);
    }
    if forall c | c in cs :: OneLine(SecretOf(files, c)) {
      OneLineFileParses(files, cs);
    }
  }
}
