/** What the texts of modules say: reading a printed module back gives its configuration. */
module ModuleMeaning {
  import opened Wrappers
  import opened Text
  import opened Specs
  import opened Sanitize
  import opened FileRefs
  import opened Unlang
  import opened Sites
  import opened SiteMeaning
  import opened Clients
  import opened ClientMeaning
  import opened ModuleTexts
  import opened Rendering
  import opened Secrets

  // ---------------------------------------------------------------- syntax and parser

  /** `key = value` on a line, or a named block of such. */
  datatype Entry = Field(key: string, value: string) | Block(name: string, entries: seq<Entry>)

  datatype Tree = Tree(kind: string, name: string, entries: seq<Entry>)

  function ParseEntries(s: string): (r: Option<(seq<Entry>, string)>)
    ensures r.Some? ==> |r.value.1| < |s|
    decreases |s|
  {
    var t := Skip(s);
    var end := Strip(t, "}\n");
    if end.Some? then Some(([], end.value))
    else
      var field := ParseField(t);
      if field.Some? then
        var others := ParseEntries(field.value.2);
        if others.None? then None
        else Some(([Field(field.value.0, field.value.1)] + others.value.0, others.value.1))
      else
        var open := ParseOpening(t);
        if open.None? then None
        else
          var inner := ParseEntries(open.value.1);
          if inner.None? then None
          else
            var others := ParseEntries(inner.value.1);
            if others.None? then None
            else Some(([Block(open.value.0, inner.value.0)] + others.value.0, others.value.1))
  }

  /** A whole file: `kind name { entries }`. */
  function ParseModule(s: string): Option<Tree> {
    var kind := TakeWhile(s, IsIdentifierChar);
    var named := Strip(DropWhile(s, IsIdentifierChar), " ");
    if kind == "" || named.None? then None
    else
      var open := ParseOpening(named.value);
      if open.None? then None
      else
        var entries := ParseEntries(open.value.1);
        if entries.None? || entries.value.1 != "" then None
        else Some(Tree(kind, open.value.0, entries.value.0))
  }

  // ---------------------------------------------------------------- printer

  function EntryText(indent: string, e: Entry): string
    decreases e
  {
    match e
    case Field(key, value) => indent + (key + (" = " + (value + "\n")))
    case Block(name, entries) => indent + (name + (" {\n" + (EntriesText(indent + FOUR, entries) + (indent + "}\n"))))
  }

  function EntriesText(indent: string, es: seq<Entry>): string
    decreases es
  {
    if es == [] then "" else EntryText(indent, es[0]) + EntriesText(indent, es[1..])
  }

  predicate EntryPlain(e: Entry) {
    match e
    case Field(key, value) => IsName(key) && OneLine(value)
    case Block(name, entries) => IsName(name) && EntriesPlain(entries)
  }

  predicate EntriesPlain(es: seq<Entry>) {
    es == [] || (EntryPlain(es[0]) && EntriesPlain(es[1..]))
  }

  function Before(es: seq<Entry>, others: Option<(seq<Entry>, string)>): Option<(seq<Entry>, string)> {
    if others.None? then None else Some((es + others.value.0, others.value.1))
  }

  lemma FieldEntryParses(indent: string, key: string, value: string, more: string)
    requires AllBlank(indent) && IsName(key) && OneLine(value)
    ensures ParseEntries(EntryText(indent, Field(key, value)) + more) == Before([Field(key, value)], ParseEntries(more))
  {
    var line := key + (" = " + (value + ("\n" + more)));
    Push4(indent, key, " = ", value + "\n", more);
    Assoc(value, "\n", more);
    assert key[0] in key && line[0] == key[0];
    SkipTo(indent, line);
    FieldParses("", key, value, more);
    assert "" + line == line;
    assert !("}\n" <= line);
  }

  lemma OpeningIsNoField(name: string, rest: string)
    requires IsName(name)
    ensures ParseField(name + (" {\n" + rest)).None?
  {
    var line := name + (" {\n" + rest);
    assert name[0] in name && line[0] == name[0];
    assert Skip(line) == line;
    TakeWhileStops(name, " {\n" + rest, IsIdentifierChar);
    assert (" {\n" + rest)[1] == '{';
  }

  lemma BlockEntryParses(indent: string, name: string, entries: seq<Entry>, more: string)
    requires AllBlank(indent) && IsName(name)
    requires var rest := EntriesText(indent + FOUR, entries) + (indent + ("}\n" + more));
             ParseEntries(rest) == Some((entries, more))
    ensures ParseEntries(EntryText(indent, Block(name, entries)) + more) ==
            Before([Block(name, entries)], ParseEntries(more))
  {
    var body := EntriesText(indent + FOUR, entries);
    var line := name + (" {\n" + (body + (indent + ("}\n" + more))));
    Push6(indent, name, " {\n", body, indent, "}\n", more);
    assert name[0] in name && line[0] == name[0];
    SkipTo(indent, line);
    OpeningIsNoField(name, body + (indent + ("}\n" + more)));
    OpeningParses(name, body + (indent + ("}\n" + more)));
    assert !("}\n" <= line);
  }

  lemma EntriesEnd(blanks: string, rest: string)
    requires AllBlank(blanks)
    ensures ParseEntries(blanks + ("}\n" + rest)) == Some(([], rest))
  {
    ClosingLine(blanks, rest);
  }

  lemma {:induction false} EntryParses(indent: string, e: Entry, more: string)
    requires AllBlank(indent) && EntryPlain(e)
    ensures ParseEntries(EntryText(indent, e) + more) == Before([e], ParseEntries(more))
    decreases e, 1
  {
    match e {
      case Field(key, value) => FieldEntryParses(indent, key, value, more);
      case Block(name, entries) =>
        IndentsBlank();
        EntriesParse(indent + FOUR, entries, indent, more);
        BlockEntryParses(indent, name, entries, more);
    }
  }

  /** Printer and parser of entries. */
  lemma {:induction false} EntriesParse(indent: string, es: seq<Entry>, blanks: string, rest: string)
    requires AllBlank(indent) && AllBlank(blanks) && EntriesPlain(es)
    ensures ParseEntries(EntriesText(indent, es) + (blanks + ("}\n" + rest))) == Some((es, rest))
    decreases es, 0
  {
    var tail := blanks + ("}\n" + rest);
    if es == [] {
      EntriesEnd(blanks, rest);
      assert EntriesText(indent, es) + tail == tail;
    } else {
      EntriesParse(indent, es[1..], blanks, rest);
      EntryParses(indent, es[0], EntriesText(indent, es[1..]) + tail);
      hide ParseEntries, EntryText;
      Assoc(EntryText(indent, es[0]), EntriesText(indent, es[1..]), tail);
      assert es == [es[0]] + es[1..];
    }
  }

  function TreeText(t: Tree): string {
    t.kind + (" " + (t.name + (" {\n" + (EntriesText(FOUR, t.entries) + "}\n"))))
  }

  /** Printer and parser of modules. */
  lemma TreeParses(t: Tree)
    requires IsName(t.kind) && IsName(t.name) && EntriesPlain(t.entries)
    ensures ParseModule(TreeText(t)) == Some(t)
  {
    hide ParseEntries, EntriesText;
    var body := EntriesText(FOUR, t.entries) + "}\n";
    TakeWhileStops(t.kind, " " + (t.name + (" {\n" + body)), IsIdentifierChar);
    StripAppend(" ", t.name + (" {\n" + body));
    OpeningParses(t.name, body);
    IndentsBlank();
    assert AllBlank("");
    EntriesParse(FOUR, t.entries, "", "");
    assert "" + ("}\n" + "") == "}\n";
  }

  // ---------------------------------------------------------------- what a configuration says

  function Quoted(v: string): string {
    "\"" + (v + "\"")
  }

  function SingleQuoted(v: string): string {
    "'" + (v + "'")
  }

  /** The reference that stands for a secret. */
  function Placeholder(ref: SecretRef): string {
    "${file:" + (("/etc/freeradius" + ("/secrets/" + (ref.name + ("/" + ref.key)))) + "}")
  }

  function SQLEntries(c: SQLConfig): seq<Entry> {
    [Field("driver", Quoted("rlm_sql_" + c.dialect)), Field("dialect", Quoted(c.dialect)),
     Field("server", Quoted(c.server)), Field("port", Decimal(c.port)), Field("database", Quoted(c.database)),
     Field("login", Quoted(c.login)), Field("password", Quoted(Placeholder(c.password)))]
  }

  function LDAPEntries(c: LDAPConfig): seq<Entry> {
    [Field("server", SingleQuoted(c.server)), Field("port", Decimal(c.port)), Field("base_dn", SingleQuoted(c.baseDN)),
     Field("identity", SingleQuoted(c.identity)), Field("password", Placeholder(c.password))]
  }

  function RedisEntries(c: RedisConfig): seq<Entry> {
    [Field("server", c.server), Field("port", Decimal(c.port))] +
    if c.password.Some? then [Field("password", Placeholder(c.password.value))] else []
  }

  function StageEntries(name: string, s: Option<RESTStage>): seq<Entry> {
    if s.None? then []
    else [Block(name, [Field("uri", Quoted(s.value.uri)), Field("method", Quoted(s.value.verb))])]
  }

  function StagesEntries(c: RESTConfig): seq<Entry> {
    StageEntries("authorize", c.authorize) + (StageEntries("authenticate", c.authenticate) +
    (StageEntries("preacct", c.preacct) + (StageEntries("accounting", c.accounting) +
    (StageEntries("post-auth", c.postAuth) + (StageEntries("pre-proxy", c.preProxy) +
    StageEntries("post-proxy", c.postProxy))))))
  }

  function AuthEntries(c: RESTConfig): seq<Entry> {
    if c.auth != "" then [Field("auth", c.auth)] else []
  }

  function PasswordEntries(c: RESTConfig): seq<Entry> {
    if c.password.Some? then [Field("password", Quoted(Placeholder(c.password.value)))] else []
  }

  function RESTEntries(c: RESTConfig): seq<Entry> {
    [Field("connect_uri", Quoted(c.connectURI))] + (AuthEntries(c) + (PasswordEntries(c) + StagesEntries(c)))
  }

  function TunnelEntries(name: string, t: Option<EAPTunnel>): seq<Entry> {
    if t.None? then []
    else
      [Block(name, [Field("default_eap_type", t.value.defaultEAPType)] +
                   if t.value.virtualServer != "" then [Field("virtual_server", t.value.virtualServer)] else [])]
  }

  function EAPEntries(c: EAPConfig): seq<Entry> {
    [Field("default_eap_type", c.defaultEAPType)] +
    ((if c.tls.Some? then
        [Block("tls", [Field("certfile", c.tls.value.certFile), Field("keyfile", c.tls.value.keyFile)])] else []) +
     (TunnelEntries("ttls", c.ttls) + TunnelEntries("peap", c.peap)))
  }

  function FilesEntries(c: FilesConfig): seq<Entry> {
    [Field("moddir", "${modconfdir}/" + "${.:instance}")] +
    ((if c.key != "" then [Field("key", Quoted(c.key))] else []) +
     [Field("filename", "${moddir}/authorize"), Field("acctusersfile", "${moddir}/accounting")])
  }

  /** What the configuration of an enabled module says, by its type; other types say nothing. */
  function TreeOf(m: ModuleConfig): Tree
    requires ConfigPresent(m)
  {
    match m.moduleType
    case "rlm_sql" => Tree("sql", m.name, SQLEntries(m.sql.value))
    case "rlm_ldap" => Tree("ldap", m.name, LDAPEntries(m.ldap.value))
    case "rlm_eap" => Tree("eap", m.name, EAPEntries(m.eap.value))
    case "rlm_rest" => Tree("rest", m.name, RESTEntries(m.rest.value))
    case "rlm_redis" => Tree("redis", m.name, RedisEntries(m.redis.value))
    case "rlm_files" => Tree("files", m.name, FilesEntries(m.files.value))
    case _ => Tree(ShortName(m.moduleType), m.name, [])
  }

  // ---------------------------------------------------------------- the texts are printed trees

  lemma EntryCons(e: Entry, es: seq<Entry>)
    ensures EntriesText(FOUR, [e] + es) == EntryText(FOUR, e) + EntriesText(FOUR, es)
  {
    assert ([e] + es)[1..] == es;
  }

  lemma {:induction false} EntriesConcat(indent: string, a: seq<Entry>, b: seq<Entry>)
    ensures EntriesText(indent, a + b) == EntriesText(indent, a) + EntriesText(indent, b)
    decreases |a|
  {
    if a == [] {
      assert a + b == b;
    } else {
      hide EntryText;
      assert (a + b)[1..] == a[1..] + b;
      EntriesConcat(indent, a[1..], b);
      Assoc(EntryText(indent, a[0]), EntriesText(indent, a[1..]), EntriesText(indent, b));
    }
  }

  lemma FieldIs(key: string, value: string)
    ensures EntryText(FOUR, Field(key, value)) == FieldText(key, value)
    ensures EntryText(EIGHT, Field(key, value)) == InnerField(key, value)
  {
  }

  lemma One(indent: string, e: Entry)
    ensures EntriesText(indent, [e]) == EntryText(indent, e)
  {
    assert [e][1..] == [];
    assert EntryText(indent, e) + "" == EntryText(indent, e);
  }

  lemma Two(indent: string, a: Entry, b: Entry)
    ensures EntriesText(indent, [a, b]) == EntryText(indent, a) + EntryText(indent, b)
  {
    hide EntryText;
    One(indent, b);
    assert [a, b][1..] == [b];
  }

  lemma BlockIs(name: string, entries: seq<Entry>)
    ensures EntryText(FOUR, Block(name, entries)) == InnerBlock(name, EntriesText(EIGHT, entries))
  {
    assert FOUR + FOUR == EIGHT;
  }

  /** A secret in quotes, as the templates of SQL and REST modules print it around the reference. */
  lemma QuotedPassword(ref: SecretRef, rest: string)
    ensures (FOUR + "password = \"") + (RefText(SecretPath(ref)) + ("\"\n" + rest)) ==
            EntryText(FOUR, Field("password", Quoted(Placeholder(ref)))) + rest
  {
    var value := RefText(SecretPath(ref));
    assert value == Placeholder(ref);
    hide RefText, SecretPath, Placeholder;
    assert "password = \"" == "password" + (" = " + "\"");
    assert "\"\n" + rest == "\"" + ("\n" + rest);
    Push3(FOUR, "password", " = " + "\"", value + ("\"\n" + rest));
    Assoc(" = ", "\"", value + ("\"\n" + rest));
    Push4(FOUR, "password", " = ", Quoted(value) + "\n", rest);
    Assoc(Quoted(value), "\n", rest);
    Push3("\"", value, "\"", "\n" + rest);
  }

  lemma BarePassword(ref: SecretRef, rest: string)
    ensures (FOUR + "password = ") + (RefText(SecretPath(ref)) + ("\n" + rest)) ==
            EntryText(FOUR, Field("password", Placeholder(ref))) + rest
  {
    var value := RefText(SecretPath(ref));
    assert value == Placeholder(ref);
    hide RefText, SecretPath, Placeholder;
    assert "password = " == "password" + " = ";
    Push3(FOUR, "password", " = ", value + ("\n" + rest));
    Push4(FOUR, "password", " = ", value + "\n", rest);
    Assoc(value, "\n", rest);
  }

  lemma OpeningPeels(kind: string, name: string, body: string)
    ensures Opening(kind, name) + body == kind + (" " + (name + (" {\n" + body)))
  {
    Push4(kind, " ", name, " {\n", body);
  }

  /** The first entry peels off. */
  lemma Peel(e: Entry, es: seq<Entry>, rest: string)
    ensures EntriesText(FOUR, [e] + es) + rest == EntryText(FOUR, e) + (EntriesText(FOUR, es) + rest)
  {
    hide EntryText;
    EntryCons(e, es);
    Assoc(EntryText(FOUR, e), EntriesText(FOUR, es), rest);
  }

  lemma NoEntries(rest: string)
    ensures EntriesText(FOUR, []) + rest == rest
  {
  }

  lemma ThreePieces(a: string, path: string, b: string)
    ensures TextOf([Lit(a), Ref(path), Lit(b)]) == a + (RefText(path) + b)
  {
    var last, rest := [Lit(b)], [Ref(path), Lit(b)];
    OnePiece(b);
    assert rest[1..] == last && TextOf(rest) == RefText(path) + TextOf(last);
    assert [Lit(a), Ref(path), Lit(b)][1..] == rest;
  }

  lemma OnePiece(a: string)
    ensures TextOf([Lit(a)]) == a
  {
    assert [Lit(a)][1..] == [] && a + "" == a;
  }

  lemma SQLIsPrinted(name: string, c: SQLConfig)
    ensures TextOf(SQLPieces(name, c)) == TreeText(Tree("sql", name, SQLEntries(c)))
  {
    var es, end := SQLEntries(c), "}\n";
    FieldIs("driver", Quoted("rlm_sql_" + c.dialect));
    FieldIs("dialect", Quoted(c.dialect));
    FieldIs("server", Quoted(c.server));
    FieldIs("port", Decimal(c.port));
    FieldIs("database", Quoted(c.database));
    FieldIs("login", Quoted(c.login));
    QuotedPassword(c.password, end);
    assert "\"\n}\n" == "\"\n" + end;
    ThreePieces(SQLPieces(name, c)[0].text, SecretPath(c.password), "\"\n" + end);
    SQLPeels(es, end);
    hide FieldText, EntryText, EntriesText, SecretPath, RefText, Placeholder, Decimal, Opening;
    var f0, f1, f2 := EntryText(FOUR, es[0]), EntryText(FOUR, es[1]), EntryText(FOUR, es[2]);
    var f3, f4, f5 := EntryText(FOUR, es[3]), EntryText(FOUR, es[4]), EntryText(FOUR, es[5]);
    var last, x := FOUR + "password = \"", RefText(SecretPath(c.password)) + ("\"\n" + end);
    var chain := f1 + (f2 + (f3 + (f4 + (f5 + last))));
    assert SQLPieces(name, c)[0].text == Opening("sql", name) + (f0 + chain);
    Push6(f0, f1, f2, f3, f4, f5 + last, x);
    Assoc(f5, last, x);
    Assoc(Opening("sql", name), f0 + chain, x);
    OpeningPeels("sql", name, (f0 + chain) + x);
  }

  lemma SQLPeels(es: seq<Entry>, rest: string)
    requires |es| == 7
    ensures EntriesText(FOUR, es) + rest ==
            EntryText(FOUR, es[0]) + (EntryText(FOUR, es[1]) + (EntryText(FOUR, es[2]) + (EntryText(FOUR, es[3]) +
            (EntryText(FOUR, es[4]) + (EntryText(FOUR, es[5]) + (EntryText(FOUR, es[6]) + rest))))))
  {
    hide EntryText, EntriesText;
    PeelAt(es, 0, rest);
    PeelAt(es, 1, rest);
    PeelAt(es, 2, rest);
    PeelAt(es, 3, rest);
    PeelAt(es, 4, rest);
    PeelAt(es, 5, rest);
    PeelAt(es, 6, rest);
    NoEntries(rest);
    assert es[7..] == [] && es[0..] == es;
  }

  lemma PeelAt(es: seq<Entry>, i: nat, rest: string)
    requires i < |es|
    ensures EntriesText(FOUR, es[i..]) + rest == EntryText(FOUR, es[i]) + (EntriesText(FOUR, es[i + 1..]) + rest)
  {
    assert es[i..] == [es[i]] + es[i + 1..];
    Peel(es[i], es[i + 1..], rest);
  }

  lemma LDAPIsPrinted(name: string, c: LDAPConfig)
    ensures TextOf(LDAPPieces(name, c)) == TreeText(Tree("ldap", name, LDAPEntries(c)))
  {
    var es, end := LDAPEntries(c), "}\n";
    FieldIs("server", SingleQuoted(c.server));
    FieldIs("port", Decimal(c.port));
    FieldIs("base_dn", SingleQuoted(c.baseDN));
    FieldIs("identity", SingleQuoted(c.identity));
    BarePassword(c.password, end);
    assert "\n}\n" == "\n" + end;
    ThreePieces(LDAPPieces(name, c)[0].text, SecretPath(c.password), "\n" + end);
    hide FieldText, EntryText, EntriesText, SecretPath, RefText, Placeholder, Decimal, Opening;
    PeelFive(es, end);
    var f0, f1, f2, f3 := EntryText(FOUR, es[0]), EntryText(FOUR, es[1]), EntryText(FOUR, es[2]),
      EntryText(FOUR, es[3]);
    var last, x := FOUR + "password = ", RefText(SecretPath(c.password)) + ("\n" + end);
    var chain := f0 + (f1 + (f2 + (f3 + last)));
    assert LDAPPieces(name, c)[0].text == Opening("ldap", name) + chain;
    Push5(f0, f1, f2, f3, last, x);
    Assoc(Opening("ldap", name), chain, x);
    OpeningPeels("ldap", name, chain + x);
  }

  lemma Onto(a: seq<Entry>, b: seq<Entry>, rest: string)
    ensures EntriesText(FOUR, a + b) + rest == EntriesText(FOUR, a) + (EntriesText(FOUR, b) + rest)
  {
    EntriesConcat(FOUR, a, b);
    Assoc(EntriesText(FOUR, a), EntriesText(FOUR, b), rest);
  }

  lemma PeelFive(es: seq<Entry>, rest: string)
    requires |es| == 5
    ensures EntriesText(FOUR, es) + rest ==
            EntryText(FOUR, es[0]) + (EntryText(FOUR, es[1]) + (EntryText(FOUR, es[2]) + (EntryText(FOUR, es[3]) +
            (EntryText(FOUR, es[4]) + rest))))
  {
    hide EntryText, EntriesText;
    PeelAt(es, 0, rest);
    PeelAt(es, 1, rest);
    PeelAt(es, 2, rest);
    PeelAt(es, 3, rest);
    PeelAt(es, 4, rest);
    NoEntries(rest);
    assert es[5..] == [] && es[0..] == es;
  }

  lemma RedisHead(name: string, c: RedisConfig, rest: string)
    ensures (Opening("redis", name) + (FieldText("server", c.server) + FieldText("port", Decimal(c.port)))) + rest ==
            "redis" + (" " + (name + (" {\n" +
              (EntriesText(FOUR, [Field("server", c.server), Field("port", Decimal(c.port))]) + rest))))
  {
    FieldIs("server", c.server);
    FieldIs("port", Decimal(c.port));
    Two(FOUR, Field("server", c.server), Field("port", Decimal(c.port)));
    hide Opening, FieldText, EntryText, EntriesText, Decimal;
    var fields := FieldText("server", c.server) + FieldText("port", Decimal(c.port));
    Assoc(Opening("redis", name), fields, rest);
    OpeningPeels("redis", name, fields + rest);
  }

  lemma RedisIsPrinted(name: string, c: RedisConfig)
    ensures TextOf(RedisPieces(name, c)) == TreeText(Tree("redis", name, RedisEntries(c)))
  {
    var end := "}\n";
    var fields := [Field("server", c.server), Field("port", Decimal(c.port))];
    var head := Opening("redis", name) + (FieldText("server", c.server) + FieldText("port", Decimal(c.port)));
    if c.password.Some? {
      var password := Field("password", Placeholder(c.password.value));
      var last, x := FOUR + "password = ", RefText(SecretPath(c.password.value)) + ("\n" + end);
      assert "\n}\n" == "\n" + end;
      ThreePieces(head + last, SecretPath(c.password.value), "\n" + end);
      BarePassword(c.password.value, end);
      One(FOUR, password);
      Onto(fields, [password], end);
      RedisHead(name, c, last + x);
      hide FieldText, EntryText, EntriesText, SecretPath, RefText, Placeholder, Decimal, Opening, TextOf;
      Assoc(head, last, x);
    } else {
      OnePiece(head + end);
      RedisHead(name, c, end);
      assert RedisEntries(c) == fields;
    }
  }

  lemma StageIsPrinted(name: string, s: Option<RESTStage>)
    ensures StageText(name, s) == EntriesText(FOUR, StageEntries(name, s))
  {
    if s.Some? {
      var uri, verb := Field("uri", Quoted(s.value.uri)), Field("method", Quoted(s.value.verb));
      FieldIs("uri", Quoted(s.value.uri));
      FieldIs("method", Quoted(s.value.verb));
      Two(EIGHT, uri, verb);
      BlockIs(name, [uri, verb]);
      One(FOUR, Block(name, [uri, verb]));
    }
  }

  lemma StagesArePrinted(c: RESTConfig)
    ensures RESTStages(c) == EntriesText(FOUR, StagesEntries(c)) + "}\n"
  {
    StageIsPrinted("authorize", c.authorize);
    StageIsPrinted("authenticate", c.authenticate);
    StageIsPrinted("preacct", c.preacct);
    StageIsPrinted("accounting", c.accounting);
    StageIsPrinted("post-auth", c.postAuth);
    StageIsPrinted("pre-proxy", c.preProxy);
    StageIsPrinted("post-proxy", c.postProxy);
    hide StageText, EntriesText, StageEntries;
    var s0, s1, s2 := StageEntries("authorize", c.authorize), StageEntries("authenticate", c.authenticate),
                      StageEntries("preacct", c.preacct);
    var s3, s4, s5 := StageEntries("accounting", c.accounting), StageEntries("post-auth", c.postAuth),
                      StageEntries("pre-proxy", c.preProxy);
    var s6, end := StageEntries("post-proxy", c.postProxy), "}\n";
    Onto(s0, s1 + (s2 + (s3 + (s4 + (s5 + s6)))), end);
    Onto(s1, s2 + (s3 + (s4 + (s5 + s6))), end);
    Onto(s2, s3 + (s4 + (s5 + s6)), end);
    Onto(s3, s4 + (s5 + s6), end);
    Onto(s4, s5 + s6, end);
    Onto(s5, s6, end);
  }

  lemma RESTHeadIsPrinted(name: string, c: RESTConfig)
    ensures RESTHead(name, c) ==
            Opening("rest", name) +
            (EntriesText(FOUR, [Field("connect_uri", Quoted(c.connectURI))]) + EntriesText(FOUR, AuthEntries(c)))
  {
    FieldIs("connect_uri", Quoted(c.connectURI));
    FieldIs("auth", c.auth);
    One(FOUR, Field("connect_uri", Quoted(c.connectURI)));
    One(FOUR, Field("auth", c.auth));
    assert EntriesText(FOUR, []) == "";
    hide EntriesText, EntryText, Opening, FieldText;
  }

  lemma RESTTailIsPrinted(name: string, c: RESTConfig)
    ensures TextOf(RESTPieces(name, c)) == RESTHead(name, c) + (EntriesText(FOUR, PasswordEntries(c)) + RESTStages(c))
  {
    hide RESTHead, RESTStages;
    if c.password.Some? {
      var last, x := FOUR + "password = \"", RefText(SecretPath(c.password.value)) + ("\"\n" + RESTStages(c));
      ThreePieces(RESTHead(name, c) + last, SecretPath(c.password.value), "\"\n" + RESTStages(c));
      QuotedPassword(c.password.value, RESTStages(c));
      One(FOUR, PasswordEntries(c)[0]);
      hide EntriesText, EntryText, TextOf, RefText, SecretPath, Placeholder;
      Assoc(RESTHead(name, c), last, x);
    } else {
      OnePiece(RESTHead(name, c) + RESTStages(c));
      NoEntries(RESTStages(c));
    }
  }

  lemma RESTIsPrinted(name: string, c: RESTConfig)
    ensures TextOf(RESTPieces(name, c)) == TreeText(Tree("rest", name, RESTEntries(c)))
  {
    var url := [Field("connect_uri", Quoted(c.connectURI))];
    var auth, password, stages := AuthEntries(c), PasswordEntries(c), StagesEntries(c);
    StagesArePrinted(c);
    RESTHeadIsPrinted(name, c);
    RESTTailIsPrinted(name, c);
    hide EntriesText, RESTHead, RESTPieces, RESTStages, Opening, StagesEntries, TextOf;
    var f0, f1 := EntriesText(FOUR, url), EntriesText(FOUR, auth);
    var tail := EntriesText(FOUR, password) + RESTStages(c);
    Onto(url, auth + (password + stages), "}\n");
    Onto(auth, password + stages, "}\n");
    Onto(password, stages, "}\n");
    Assoc(Opening("rest", name), f0 + f1, tail);
    Assoc(f0, f1, tail);
    OpeningPeels("rest", name, (f0 + f1) + tail);
  }

  lemma TunnelIsPrinted(name: string, t: Option<EAPTunnel>)
    ensures TunnelText(name, t) == EntriesText(FOUR, TunnelEntries(name, t))
  {
    if t.Some? {
      var kind, server := Field("default_eap_type", t.value.defaultEAPType),
        Field("virtual_server", t.value.virtualServer);
      var entries := [kind] + if t.value.virtualServer != "" then [server] else [];
      FieldIs("default_eap_type", t.value.defaultEAPType);
      FieldIs("virtual_server", t.value.virtualServer);
      One(EIGHT, kind);
      Two(EIGHT, kind, server);
      assert t.value.virtualServer != "" ==> entries == [kind, server];
      assert t.value.virtualServer == "" ==> entries == [kind];
      BlockIs(name, entries);
      One(FOUR, Block(name, entries));
    }
  }

  lemma EAPIsPrinted(name: string, c: EAPConfig)
    ensures EAPText(name, c) == TreeText(Tree("eap", name, EAPEntries(c)))
  {
    var kind := Field("default_eap_type", c.defaultEAPType);
    var tls := if c.tls.Some? then
      [Block("tls", [Field("certfile", c.tls.value.certFile), Field("keyfile", c.tls.value.keyFile)])] else [];
    var ttls, peap := TunnelEntries("ttls", c.ttls), TunnelEntries("peap", c.peap);
    FieldIs("default_eap_type", c.defaultEAPType);
    One(FOUR, kind);
    TunnelIsPrinted("ttls", c.ttls);
    TunnelIsPrinted("peap", c.peap);
    TLSIsPrinted(c.tls);
    hide EntriesText, TunnelText, TLSText, Opening, FieldText;
    var rest := EntriesText(FOUR, [kind]) +
      (EntriesText(FOUR, tls) + (EntriesText(FOUR, ttls) + (EntriesText(FOUR, peap) + "}\n")));
    Onto([kind], tls + (ttls + peap), "}\n");
    Onto(tls, ttls + peap, "}\n");
    Onto(ttls, peap, "}\n");
    OpeningPeels("eap", name, rest);
  }

  lemma TLSIsPrinted(t: Option<EAPTLS>)
    ensures TLSText(t) == EntriesText(FOUR, if t.Some? then
              [Block("tls", [Field("certfile", t.value.certFile), Field("keyfile", t.value.keyFile)])] else [])
  {
    if t.Some? {
      var cert, key := Field("certfile", t.value.certFile), Field("keyfile", t.value.keyFile);
      FieldIs("certfile", t.value.certFile);
      FieldIs("keyfile", t.value.keyFile);
      Two(EIGHT, cert, key);
      BlockIs("tls", [cert, key]);
      One(FOUR, Block("tls", [cert, key]));
    }
  }

  lemma FilesIsPrinted(name: string, c: FilesConfig)
    ensures FilesText(name, c) == TreeText(Tree("files", name, FilesEntries(c)))
  {
    var dir := Field("moddir", "${modconfdir}/" + "${.:instance}");
    var key := if c.key != "" then [Field("key", Quoted(c.key))] else [];
    var users, acct := Field("filename", "${moddir}/authorize"), Field("acctusersfile", "${moddir}/accounting");
    FieldIs("moddir", "${modconfdir}/" + "${.:instance}");
    FieldIs("key", Quoted(c.key));
    FieldIs("filename", "${moddir}/authorize");
    FieldIs("acctusersfile", "${moddir}/accounting");
    One(FOUR, dir);
    One(FOUR, Field("key", Quoted(c.key)));
    Two(FOUR, users, acct);
    assert EntriesText(FOUR, []) == "";
    hide EntriesText, Opening, FieldText, EntryText;
    var last := EntriesText(FOUR, [users, acct]);
    Onto([dir], key + [users, acct], "}\n");
    Onto(key, [users, acct], "}\n");
    Assoc(FieldText("filename", "${moddir}/authorize"), FieldText("acctusersfile", "${moddir}/accounting"), "}\n");
    OpeningPeels("files", name, EntriesText(FOUR, [dir]) + (EntriesText(FOUR, key) + (last + "}\n")));
  }

  // ---------------------------------------------------------------- reading modules back

  lemma OneLineConcat(a: string, b: string)
    requires OneLine(a) && OneLine(b)
    ensures OneLine(a + b)
  {
  }

  lemma QuotesOnLine(v: string)
    requires OneLine(v)
    ensures OneLine(Quoted(v)) && OneLine(SingleQuoted(v))
  {
  }

  lemma PlaceholderOnLine(ref: SecretRef)
    requires OneLine(ref.name) && OneLine(ref.key)
    ensures OneLine(Placeholder(ref)) && OneLine(Quoted(Placeholder(ref)))
  {
    assert OneLine("${file:") && OneLine("/etc/freeradius") && OneLine("/secrets/") && OneLine("/") && OneLine("}");
    OneLineConcat("/", ref.key);
    OneLineConcat(ref.name, "/" + ref.key);
    OneLineConcat("/secrets/", ref.name + ("/" + ref.key));
    OneLineConcat("/etc/freeradius", "/secrets/" + (ref.name + ("/" + ref.key)));
    OneLineConcat("/etc/freeradius" + ("/secrets/" + (ref.name + ("/" + ref.key))), "}");
    OneLineConcat("${file:", ("/etc/freeradius" + ("/secrets/" + (ref.name + ("/" + ref.key)))) + "}");
    QuotesOnLine(Placeholder(ref));
  }

  lemma NumberOnLine(n: int)
    ensures OneLine(Decimal(n))
  {
  }

  lemma VerbOnLine(verb: string)
    requires verb != "" ==> ValidHTTPMethod(verb)
    ensures OneLine(verb)
  {
    assert forall i | 0 <= i < |verb| :: ToUpper(verb)[i] == Upper(verb[i]);
  }

  lemma URLOnLine(uri: string)
    requires ValidURI(uri)
    ensures OneLine(uri)
  {
    var n :| 0 < n < |uri| && IsLetter(uri[0]) && (forall i | 0 <= i < n :: IsSchemeChar(uri[i])) &&
      "://" <= uri[n..] &&
      |uri| > n + 3 && forall i | n + 3 <= i < |uri| :: IsURIChar(uri[i]);
    assert uri[n] == uri[n..][0] == ':' && uri[n + 1] == uri[n..][1] == '/' && uri[n + 2] == uri[n..][2] == '/';
    forall i | 0 <= i < |uri|
      ensures uri[i] != '\n'
    {
      assert i < n || n <= i < n + 3 || n + 3 <= i;
    }
  }

  lemma PlainFields(es: seq<Entry>)
    requires forall i | 0 <= i < |es| :: es[i].Field? && IsName(es[i].key) && OneLine(es[i].value)
    ensures EntriesPlain(es)
  {
    if es != [] {
      PlainFields(es[1..]);
    }
  }

  lemma {:induction false} PlainConcat(a: seq<Entry>, b: seq<Entry>)
    requires EntriesPlain(a) && EntriesPlain(b)
    ensures EntriesPlain(a + b)
    decreases |a|
  {
    if a == [] {
      assert a + b == b;
    } else {
      assert (a + b)[1..] == a[1..] + b;
      PlainConcat(a[1..], b);
    }
  }

  lemma SQLNames()
    ensures IsName("driver") && IsName("dialect") && IsName("server") && IsName("port") && IsName("database")
    ensures IsName("login") && IsName("password")
  {
  }

  lemma SQLPlain(c: SQLConfig)
    requires ValidSQL(c) && OneLine(c.password.name) && OneLine(c.password.key)
    ensures EntriesPlain(SQLEntries(c))
  {
    PlaceholderOnLine(c.password);
    NumberOnLine(c.port);
    assert OneLine(c.dialect) && OneLine(c.server) && OneLine(c.database) && OneLine(c.login);
    assert OneLine("rlm_sql_");
    OneLineConcat("rlm_sql_", c.dialect);
    QuotesOnLine("rlm_sql_" + c.dialect);
    QuotesOnLine(c.dialect);
    QuotesOnLine(c.server);
    QuotesOnLine(c.database);
    QuotesOnLine(c.login);
    SQLNames();
    hide OneLine, IsName, Quoted, Placeholder, Decimal, ValidSQL;
    PlainFields(SQLEntries(c));
  }

  lemma LDAPPlain(c: LDAPConfig)
    requires ValidLDAP(c) && OneLine(c.password.name) && OneLine(c.password.key)
    ensures EntriesPlain(LDAPEntries(c))
  {
    PlaceholderOnLine(c.password);
    NumberOnLine(c.port);
    assert OneLine(c.server) && OneLine(c.baseDN) && OneLine(c.identity);
    QuotesOnLine(c.server);
    QuotesOnLine(c.baseDN);
    QuotesOnLine(c.identity);
    assert IsName("server") && IsName("port") && IsName("base_dn") && IsName("identity") && IsName("password");
    hide OneLine, IsName, SingleQuoted, Placeholder, Decimal, ValidLDAP;
    PlainFields(LDAPEntries(c));
  }

  lemma RedisPlain(c: RedisConfig)
    requires ValidRedis(c) && (c.password.Some? ==> OneLine(c.password.value.name) && OneLine(c.password.value.key))
    ensures EntriesPlain(RedisEntries(c))
  {
    if c.password.Some? { PlaceholderOnLine(c.password.value); }
    NumberOnLine(c.port);
    assert OneLine(c.server) && IsName("server") && IsName("port") && IsName("password");
    hide OneLine, IsName, Placeholder, Decimal, ValidRedis;
    PlainFields(RedisEntries(c));
  }

  lemma StagePlain(name: string, s: Option<RESTStage>)
    requires IsName(name) && ValidRESTStage(s)
    ensures EntriesPlain(StageEntries(name, s))
  {
    if s.Some? {
      VerbOnLine(s.value.verb);
      assert OneLine(s.value.uri);
      QuotesOnLine(s.value.uri);
      QuotesOnLine(s.value.verb);
      assert IsName("uri") && IsName("method");
      hide OneLine, IsName, Quoted;
      var fields := [Field("uri", Quoted(s.value.uri)), Field("method", Quoted(s.value.verb))];
      PlainFields(fields);
      assert EntryPlain(Block(name, fields));
      assert [Block(name, fields)][1..] == [];
    }
  }

  lemma RESTPlain(c: RESTConfig)
    requires ValidREST(c) && (c.password.Some? ==> OneLine(c.password.value.name) && OneLine(c.password.value.key))
    ensures EntriesPlain(RESTEntries(c))
  {
    URLOnLine(c.connectURI);
    QuotesOnLine(c.connectURI);
    if c.password.Some? { PlaceholderOnLine(c.password.value); }
    assert OneLine(c.auth) && IsName("connect_uri") && IsName("auth") && IsName("password");
    StagesPlain(c);
    hide OneLine, IsName, Quoted, Placeholder, ValidREST, StagesEntries;
    var url := [Field("connect_uri", Quoted(c.connectURI))];
    PlainFields(url);
    PlainFields(AuthEntries(c));
    PlainFields(PasswordEntries(c));
    PlainConcat(PasswordEntries(c), StagesEntries(c));
    PlainConcat(AuthEntries(c), PasswordEntries(c) + StagesEntries(c));
    PlainConcat(url, AuthEntries(c) + (PasswordEntries(c) + StagesEntries(c)));
  }

  lemma StagesPlain(c: RESTConfig)
    requires ValidREST(c)
    ensures EntriesPlain(StagesEntries(c))
  {
    assert IsName("authorize") && IsName("authenticate") && IsName("preacct") && IsName("accounting");
    assert IsName("post-auth") && IsName("pre-proxy") && IsName("post-proxy");
    hide IsName, ValidURI, ValidRESTStage, StageEntries;
    StagePlain("authorize", c.authorize);
    StagePlain("authenticate", c.authenticate);
    StagePlain("preacct", c.preacct);
    StagePlain("accounting", c.accounting);
    StagePlain("post-auth", c.postAuth);
    StagePlain("pre-proxy", c.preProxy);
    StagePlain("post-proxy", c.postProxy);
    var s3, s4, s5, s6 := StageEntries("accounting", c.accounting), StageEntries("post-auth", c.postAuth),
                          StageEntries("pre-proxy", c.preProxy), StageEntries("post-proxy", c.postProxy);
    PlainConcat(s5, s6);
    PlainConcat(s4, s5 + s6);
    PlainConcat(s3, s4 + (s5 + s6));
    PlainConcat(StageEntries("preacct", c.preacct), s3 + (s4 + (s5 + s6)));
    PlainConcat(StageEntries("authenticate", c.authenticate),
                StageEntries("preacct", c.preacct) + (s3 + (s4 + (s5 + s6))));
    PlainConcat(StageEntries("authorize", c.authorize),
                StageEntries("authenticate", c.authenticate) +
                  (StageEntries("preacct", c.preacct) + (s3 + (s4 + (s5 + s6)))));
  }

  lemma TunnelPlain(name: string, t: Option<EAPTunnel>)
    requires IsName(name) && (t.Some? ==> ValidTunnel(t.value))
    ensures EntriesPlain(TunnelEntries(name, t))
  {
    if t.Some? {
      assert OneLine(t.value.defaultEAPType) && OneLine(t.value.virtualServer);
      assert IsName("default_eap_type") && IsName("virtual_server");
      hide OneLine, IsName;
      var fields := [Field("default_eap_type", t.value.defaultEAPType)] +
        if t.value.virtualServer != "" then [Field("virtual_server", t.value.virtualServer)] else [];
      PlainFields(fields);
      assert EntryPlain(Block(name, fields));
      assert [Block(name, fields)][1..] == [];
    }
  }

  lemma TLSPlain(c: EAPConfig)
    requires ValidEAP(c) && c.tls.Some?
    ensures EntriesPlain([Block("tls",
                                [Field("certfile", c.tls.value.certFile), Field("keyfile", c.tls.value.keyFile)])])
  {
    assert OneLine(c.tls.value.certFile) && OneLine(c.tls.value.keyFile);
    assert IsName("tls") && IsName("certfile") && IsName("keyfile");
    hide OneLine, IsName, ValidEAP;
    var fields := [Field("certfile", c.tls.value.certFile), Field("keyfile", c.tls.value.keyFile)];
    PlainFields(fields);
    assert EntryPlain(Block("tls", fields));
    assert [Block("tls", fields)][1..] == [];
  }

  lemma EAPPlain(c: EAPConfig)
    requires ValidEAP(c)
    ensures EntriesPlain(EAPEntries(c))
  {
    assert OneLine(c.defaultEAPType) && IsName("default_eap_type") && IsName("ttls") && IsName("peap");
    if c.tls.Some? { TLSPlain(c); }
    TunnelPlain("ttls", c.ttls);
    TunnelPlain("peap", c.peap);
    hide OneLine, IsName, ValidEAP, TunnelEntries;
    var kind := [Field("default_eap_type", c.defaultEAPType)];
    var tls := if c.tls.Some? then
      [Block("tls", [Field("certfile", c.tls.value.certFile), Field("keyfile", c.tls.value.keyFile)])] else [];
    PlainFields(kind);
    PlainConcat(TunnelEntries("ttls", c.ttls), TunnelEntries("peap", c.peap));
    PlainConcat(tls, TunnelEntries("ttls", c.ttls) + TunnelEntries("peap", c.peap));
    PlainConcat(kind, tls + (TunnelEntries("ttls", c.ttls) + TunnelEntries("peap", c.peap)));
  }

  lemma FilesLiterals()
    ensures OneLine("${modconfdir}/" + "${.:instance}") && OneLine("${moddir}/authorize") &&
            OneLine("${moddir}/accounting")
  {
    assert OneLine("${modconfdir}/") && OneLine("${.:instance}");
    OneLineConcat("${modconfdir}/", "${.:instance}");
  }

  lemma FilesNames()
    ensures IsName("moddir") && IsName("key") && IsName("filename") && IsName("acctusersfile")
  {
  }

  lemma FilesPlain(c: FilesConfig)
    requires ValidFiles(c)
    ensures EntriesPlain(FilesEntries(c))
  {
    assert OneLine(c.key);
    QuotesOnLine(c.key);
    FilesLiterals();
    FilesNames();
    hide OneLine, IsName, Quoted, ValidFiles;
    PlainFields(FilesEntries(c));
  }

  lemma PlainTypeName(t: string)
    requires t in PLAIN_TYPES
    ensures IsName(ShortName(t)) && t !in TEMPLATED_TYPES
  {
    var i :| 0 <= i < |PLAIN_TYPES| && PLAIN_TYPES[i] == t;
    assert "rlm_" <= PLAIN_TYPES[i] && forall k | 4 <= k < |PLAIN_TYPES[i]| :: IsIdentifierChar(PLAIN_TYPES[i][k]);
    assert forall j | 0 <= j < |TEMPLATED_TYPES| :: PLAIN_TYPES[i] != TEMPLATED_TYPES[j];
  }

  /** Secret names and keys, which the API server lets hold no newline. */
  predicate RefsOnLine(m: ModuleConfig) {
    forall ref | ref in PrintedRefs(m) :: OneLine(ref.name) && OneLine(ref.key)
  }

  lemma TextIsTree(m: ModuleConfig)
    requires m.enabled && m.rawConfig == "" && ModuleCheck(m).None?
    ensures ModuleText(m) == TreeText(TreeOf(m))
  {
    if m.moduleType in TEMPLATED_TYPES {
      match m.moduleType {
        case "rlm_sql" => SQLIsPrinted(m.name, m.sql.value);
        case "rlm_ldap" => LDAPIsPrinted(m.name, m.ldap.value);
        case "rlm_eap" => EAPIsPrinted(m.name, m.eap.value); OnePiece(EAPText(m.name, m.eap.value));
        case "rlm_rest" => RESTIsPrinted(m.name, m.rest.value);
        case "rlm_redis" => RedisIsPrinted(m.name, m.redis.value);
        case "rlm_files" => FilesIsPrinted(m.name, m.files.value); OnePiece(FilesText(m.name, m.files.value));
        case _ =>
      }
    } else {
      PlainText(m.moduleType, m.name);
    }
  }

  lemma PlainText(t: string, name: string)
    ensures ShortName(t) + (" " + (name + " {\n}\n")) == TreeText(Tree(ShortName(t), name, []))
  {
    assert " {\n}\n" == " {\n" + ("" + "}\n");
  }

  lemma TreePlain(m: ModuleConfig)
    requires m.enabled && m.rawConfig == "" && ModuleCheck(m).None? && ValidModule(m) && RefsOnLine(m)
    ensures IsName(TreeOf(m).kind) && IsName(m.name) && TreeOf(m).name == m.name && EntriesPlain(TreeOf(m).entries)
  {
    assert m.name[0] in m.name;
    hide EntriesPlain, IsAttributeChar;
    match m.moduleType {
      case "rlm_sql" => assert m.sql.value.password in PrintedRefs(m); SQLPlain(m.sql.value);
      case "rlm_ldap" => assert m.ldap.value.password in PrintedRefs(m); LDAPPlain(m.ldap.value);
      case "rlm_eap" => EAPPlain(m.eap.value);
      case "rlm_rest" => OptionalRefs(m); RESTPlain(m.rest.value);
      case "rlm_redis" => OptionalRefs(m); RedisPlain(m.redis.value);
      case "rlm_files" => FilesPlain(m.files.value);
      case _ => PlainTypeName(m.moduleType); NothingPlain();
    }
    KindsAreNames();
  }

  lemma OptionalRefs(m: ModuleConfig)
    requires m.enabled && m.rawConfig == ""
    ensures m.moduleType == "rlm_rest" && m.rest.Some? && m.rest.value.password.Some? ==>
              m.rest.value.password.value in PrintedRefs(m)
    ensures m.moduleType == "rlm_redis" && m.redis.Some? && m.redis.value.password.Some? ==>
              m.redis.value.password.value in PrintedRefs(m)
  {
  }

  lemma NothingPlain()
    ensures EntriesPlain([])
  {
  }

  lemma KindsAreNames()
    ensures IsName("sql") && IsName("ldap") && IsName("eap") && IsName("rest") && IsName("redis") && IsName("files")
  {
  }

  /** Printer and parser of modules: the text of an enabled, validated module is read back as its type,
      its name and the fields of its configuration, each under its own key; and raw text is the text. */
  lemma ModuleReads(m: ModuleConfig)
    requires m.enabled && ModuleCheck(m).None? && ValidModule(m) && RefsOnLine(m)
    ensures if m.rawConfig != "" then ModuleText(m) == m.rawConfig else ParseModule(ModuleText(m)) == Some(TreeOf(m))
  {
    if m.rawConfig == "" {
      TextIsTree(m);
      TreePlain(m);
      hide ModuleText, TreeText, TreeOf, ParseModule, EntriesPlain, IsName;
      TreeParses(TreeOf(m));
    }
  }

  // ---------------------------------------------------------------- numbers

  /** The number that decimal digits stand for. */
  function NumberOf(s: string): int
    requires forall c | c in s :: IsDigit(c)
  {
    if s == "" then 0 else 10 * NumberOf(s[..|s| - 1]) + (s[|s| - 1] as int - '0' as int)
  }

  /** A number is printed as its digits, behind a sign if it is negative. */
  lemma {:induction false} DecimalReads(n: int)
    ensures if n < 0 then Decimal(n)[0] == '-' && (forall c | c in Decimal(n)[1..] :: IsDigit(c)) &&
                          -NumberOf(Decimal(n)[1..]) == n
            else (forall c | c in Decimal(n) :: IsDigit(c)) && NumberOf(Decimal(n)) == n
    decreases n < 0, if n < 0 then -n else n
  {
    if n < 0 {
      DecimalReads(-n);
      assert Decimal(n)[1..] == Decimal(-n);
    } else if n < 10 {
      assert Decimal(n)[..0] == "";
    } else {
      DecimalReads(n / 10);
      assert Decimal(n)[..|Decimal(n)| - 1] == Decimal(n / 10);
    }
  }
}
