/** What the texts of modules and clients refer to: every marker in them begins a reference to the
    secret of that module or client, and the Secret is mounted where the reference points. */
module SecretReferences {
  import opened Wrappers
  import opened Text
  import opened Specs
  import opened Objects
  import opened Sanitize
  import opened FileRefs
  import opened RefOutcomes
  import opened RefExpansion
  import opened Sites
  import opened Clients
  import opened ClientMeaning
  import opened ClientSecrets
  import opened ClientOutcomes
  import opened Clusters
  import opened ModuleTexts
  import opened Rendering
  import opened Secrets

  // ---------------------------------------------------------------- markers of cut texts

  predicate PlainPath(path: string) {
    NoDollar(path) && '}' !in path && '"' !in path
  }

  /** Literals that hold no marker nor the beginning of one, and paths without `$`. */
  predicate PlainPieces(pieces: seq<Piece>) {
    forall piece | piece in pieces :: if piece.Lit? then Shut(piece.text) else PlainPath(piece.path)
  }

  lemma OccursInRest(first: string, rest: string, i: nat, sub: string)
    requires |first| <= i
    ensures OccursAt(first + rest, sub, i) <==> OccursAt(rest, sub, i - |first|)
  {
    assert i + |sub| <= |first + rest| ==> (first + rest)[i..i + |sub|] == rest[i - |first|..i - |first| + |sub|];
  }

  /** In a plain text markers begin where references begin. */
  lemma {:induction false} MarkersAreReferences(pieces: seq<Piece>, i: nat) returns (path: string)
    requires PlainPieces(pieces) && OccursAt(TextOf(pieces), MARKER, i)
    ensures Ref(path) in pieces && OccursAt(TextOf(pieces), RefText(path), i)
    decreases |pieces|
  {
    var rest := TextOf(pieces[1..]);
    assert pieces[0] in pieces;
    match pieces[0] {
      case Lit(text) =>
        MarkerAcross(text, rest, i);
        CleanMeansNone(text);
        if |text| > i {
          ShutHasNoBeginning(text, i);
        }
        OccursInRest(text, rest, i, MARKER);
        path := MarkersAreReferences(pieces[1..], i - |text|);
        OccursInRest(text, rest, i, RefText(path));
      case Ref(first) =>
        CharOfOccurrence(TextOf(pieces), MARKER, i, 0);
        if i == 0 {
          path := first;
          assert (RefText(first) + rest)[0..0 + |RefText(first)|] == RefText(first);
        } else {
          if i < |RefText(first)| {
            OnlyFirstIsDollar(first, rest, i);
          }
          OccursInRest(RefText(first), rest, i, MARKER);
          path := MarkersAreReferences(pieces[1..], i - |RefText(first)|);
          OccursInRest(RefText(first), rest, i, RefText(path));
        }
    }
  }

  lemma OnlyFirstIsDollar(path: string, rest: string, i: nat)
    requires PlainPath(path) && 0 < i < |RefText(path)|
    ensures (RefText(path) + rest)[i] != '$'
  {
    assert RefText(path)[i] ==
           if i < |MARKER| then MARKER[i] else if i < |MARKER| + |path| then path[i - |MARKER|] else '}';
    assert |MARKER| <= i < |MARKER| + |path| ==> path[i - |MARKER|] in path;
  }

  // ---------------------------------------------------------------- literals of modules

  lemma IdentifierIsPlain(s: string)
    requires s != "" ==> ValidIdentifier(s)
    ensures NoDollar(s)
  {
  }

  lemma FieldsArePlain(key: string, value: string)
    requires NoDollar(key) && NoDollar(value)
    ensures NoDollar(FieldText(key, value)) && NoDollar(FieldText(key, InDouble(value))) &&
            NoDollar(FieldText(key, InSingle(value)))
    ensures NoDollar(InnerField(key, value)) && NoDollar(InnerField(key, InDouble(value)))
  {
    assert NoDollar(FOUR) && NoDollar(EIGHT);
  }

  lemma PlainConcat(a: string, b: string)
    requires NoDollar(a) && NoDollar(b)
    ensures NoDollar(a + b)
  {
  }

  lemma OpeningIsPlain(kind: string, name: string)
    requires NoDollar(kind) && ValidIdentifier(name)
    ensures NoDollar(Opening(kind, name))
  {
    IdentifierIsPlain(name);
  }

  lemma SQLIsPlain(name: string, c: SQLConfig)
    requires ValidIdentifier(name) && ValidSQL(c)
    ensures NoDollar(SQLPieces(name, c)[0].text) && NoDollar(SQLPieces(name, c)[2].text)
  {
    OpeningIsPlain("sql", name);
    IdentifierIsPlain(c.dialect);
    PlainConcat("rlm_sql_", c.dialect);
    FieldsArePlain("driver", "rlm_sql_" + c.dialect);
    FieldsArePlain("dialect", c.dialect);
    FieldsArePlain("server", c.server);
    FieldsArePlain("port", Decimal(c.port));
    FieldsArePlain("database", c.database);
    FieldsArePlain("login", c.login);
    assert NoDollar(FOUR + "password = \"") && NoDollar("\"\n}\n");
    hide FieldText, Opening, InDouble, Decimal, ValidSQL, ValidIdentifier, NoDollar, SecretPath;
    var login := FieldText("login", InDouble(c.login)) + (FOUR + "password = \"");
    var port := FieldText("port", Decimal(c.port)) + (FieldText("database", InDouble(c.database)) + login);
    var rest := FieldText("dialect", InDouble(c.dialect)) + (FieldText("server", InDouble(c.server)) + port);
    PlainConcat(FieldText("login", InDouble(c.login)), FOUR + "password = \"");
    PlainConcat(FieldText("database", InDouble(c.database)), login);
    PlainConcat(FieldText("port", Decimal(c.port)), FieldText("database", InDouble(c.database)) + login);
    PlainConcat(FieldText("server", InDouble(c.server)), port);
    PlainConcat(FieldText("dialect", InDouble(c.dialect)), FieldText("server", InDouble(c.server)) + port);
    PlainConcat(FieldText("driver", InDouble("rlm_sql_" + c.dialect)), rest);
    PlainConcat(Opening("sql", name), FieldText("driver", InDouble("rlm_sql_" + c.dialect)) + rest);
  }

  lemma LDAPIsPlain(name: string, c: LDAPConfig)
    requires ValidIdentifier(name) && ValidLDAP(c)
    ensures NoDollar(LDAPPieces(name, c)[0].text) && NoDollar(LDAPPieces(name, c)[2].text)
  {
    OpeningIsPlain("ldap", name);
    FieldsArePlain("server", c.server);
    FieldsArePlain("port", Decimal(c.port));
    FieldsArePlain("base_dn", c.baseDN);
    FieldsArePlain("identity", c.identity);
    hide FieldText, Opening, InSingle, Decimal;
    assert NoDollar(FOUR + "password = ");
  }

  lemma RedisIsPlain(name: string, c: RedisConfig)
    requires ValidIdentifier(name) && ValidRedis(c)
    ensures forall piece | piece in RedisPieces(name, c) && piece.Lit? :: NoDollar(piece.text)
  {
    OpeningIsPlain("redis", name);
    FieldsArePlain("server", c.server);
    FieldsArePlain("port", Decimal(c.port));
    hide FieldText, Opening, Decimal;
    assert NoDollar(FOUR + "password = ");
  }

  lemma MethodIsPlain(verb: string)
    requires verb != "" ==> ValidHTTPMethod(verb)
    ensures NoDollar(verb)
  {
    assert forall i | 0 <= i < |verb| :: ToUpper(verb)[i] == Upper(verb[i]);
  }

  lemma StageIsPlain(name: string, s: Option<RESTStage>)
    requires NoDollar(name) && ValidRESTStage(s)
    ensures NoDollar(StageText(name, s))
  {
    if s.Some? {
      MethodIsPlain(s.value.verb);
      FieldsArePlain("uri", s.value.uri);
      FieldsArePlain("method", s.value.verb);
      hide InnerField, InDouble;
      BlockIsPlain(name, InnerField("uri", InDouble(s.value.uri)) + InnerField("method", InDouble(s.value.verb)));
    }
  }

  lemma BlockIsPlain(name: string, body: string)
    requires NoDollar(name) && NoDollar(body)
    ensures NoDollar(InnerBlock(name, body))
  {
    assert NoDollar(FOUR) && NoDollar(" {\n") && NoDollar("}\n");
  }

  lemma StagesArePlain(c: RESTConfig)
    requires ValidREST(c)
    ensures NoDollar(RESTStages(c)) && RESTStages(c) != ""
  {
    StageIsPlain("authorize", c.authorize);
    StageIsPlain("authenticate", c.authenticate);
    StageIsPlain("preacct", c.preacct);
    StageIsPlain("accounting", c.accounting);
    StageIsPlain("post-auth", c.postAuth);
    StageIsPlain("pre-proxy", c.preProxy);
    StageIsPlain("post-proxy", c.postProxy);
    hide StageText;
  }

  lemma TunnelIsPlain(name: string, t: Option<EAPTunnel>)
    requires NoDollar(name) && (t.Some? ==> ValidTunnel(t.value))
    ensures NoDollar(TunnelText(name, t))
  {
    if t.Some? {
      IdentifierIsPlain(t.value.defaultEAPType);
      IdentifierIsPlain(t.value.virtualServer);
      FieldsArePlain("default_eap_type", t.value.defaultEAPType);
      FieldsArePlain("virtual_server", t.value.virtualServer);
      var server := t.value.virtualServer;
      BlockIsPlain(name, InnerField("default_eap_type", t.value.defaultEAPType) +
                         if server != "" then InnerField("virtual_server", server) else "");
    }
  }

  lemma TLSIsPlain(t: Option<EAPTLS>)
    requires t.Some? ==>
             (t.value.certFile != "" ==> ValidFilePath(t.value.certFile)) &&
               (t.value.keyFile != "" ==> ValidFilePath(t.value.keyFile))
    ensures NoDollar(TLSText(t))
  {
    if t.Some? {
      FieldsArePlain("certfile", t.value.certFile);
      FieldsArePlain("keyfile", t.value.keyFile);
      BlockIsPlain("tls", InnerField("certfile", t.value.certFile) + InnerField("keyfile", t.value.keyFile));
    }
  }

  lemma EAPIsPlain(name: string, c: EAPConfig)
    requires ValidIdentifier(name) && ValidEAP(c)
    ensures NoDollar(EAPText(name, c))
  {
    OpeningIsPlain("eap", name);
    IdentifierIsPlain(c.defaultEAPType);
    FieldsArePlain("default_eap_type", c.defaultEAPType);
    TLSIsPlain(c.tls);
    TunnelIsPlain("ttls", c.ttls);
    TunnelIsPlain("peap", c.peap);
    hide Opening, FieldText, TLSText, TunnelText;
  }

  /** A text without a marker, followed by one without `$` whose first character no marker holds. */
  lemma ClosedIsShut(a: string, b: string)
    requires Index(a, MARKER).None? && b != "" && b[0] !in MARKER && NoDollar(b)
    ensures Shut(a + b)
  {
    var s := a + b;
    CleanMeansNone(a);
    NoDollarNoMarker(b);
    CleanConcat(a, b);
    CleanMeansNone(s);
    forall k | 0 < k < |MARKER| && k <= |s|
      ensures s[|s| - k..] != MARKER[..k]
    {
      assert s[|s| - k..][0] == s[|s| - k] && MARKER[..k][0] == '$';
      assert k <= |b| ==> s[|s| - k] == b[|b| - k];
      assert |b| < k ==> s[|s| - k..][k - |b|] == b[0] && MARKER[..k][k - |b|] in MARKER;
    }
  }

  lemma OpenedIsShut(a: string, b: string)
    requires NoDollar(a) && Shut(b)
    ensures Shut(a + b)
  {
    NoDollarIsShut(a);
    ShutConcat(a, b);
  }

  lemma FilesIsShut(name: string, c: FilesConfig)
    requires ValidIdentifier(name) && ValidFiles(c)
    ensures Shut(FilesText(name, c))
  {
    var key := if c.key != "" then FieldText("key", InDouble(c.key)) else "";
    OpeningIsPlain("files", name);
    FieldsArePlain("key", c.key);
    ExpansionFieldIsShut("moddir", "${modconfdir}/" + "${.:instance}");
    ExpansionFieldIsShut("filename", "${moddir}/authorize");
    ExpansionFieldIsShut("acctusersfile", "${moddir}/accounting");
    NoDollarIsShut("}\n");
    NoDollarIsShut(key);
    NoDollarIsShut(Opening("files", name));
    hide FieldText, Opening, Shut;
    ShutConcat(FieldText("acctusersfile", "${moddir}/accounting"), "}\n");
    ShutConcat(FieldText("filename", "${moddir}/authorize"),
               FieldText("acctusersfile", "${moddir}/accounting") + "}\n");
    ShutConcat(key,
               FieldText("filename", "${moddir}/authorize") +
                 (FieldText("acctusersfile", "${moddir}/accounting") + "}\n"));
    ShutConcat(FieldText("moddir", "${modconfdir}/" + "${.:instance}"),
               key +
                 (FieldText("filename", "${moddir}/authorize") +
                  (FieldText("acctusersfile", "${moddir}/accounting") + "}\n")));
    ShutConcat(Opening("files", name), FieldText("moddir", "${modconfdir}/" + "${.:instance}") +
               (key +
                (FieldText("filename", "${moddir}/authorize") +
                 (FieldText("acctusersfile", "${moddir}/accounting") + "}\n"))));
  }

  /** The values of the files template expand variables, not files: no `${f` in them. */
  lemma ExpansionFieldIsShut(key: string, value: string)
    requires NoDollar(key)
    requires forall i | 0 <= i < |value| && value[i] == '$' :: i + 2 < |value| && value[i + 2] != 'f'
    ensures Shut(FieldText(key, value))
  {
    var before := FOUR + (key + " = ");
    assert FieldText(key, value) == before + (value + "\n");
    assert NoDollar(before) && '\n' !in MARKER;
    forall i: nat
      ensures !OccursAt(value, MARKER, i)
    {
      if OccursAt(value, MARKER, i) {
        CharOfOccurrence(value, MARKER, i, 0);
        CharOfOccurrence(value, MARKER, i, 2);
      }
    }
    CleanMeansNone(value);
    ClosedIsShut(value, "\n");
    OpenedIsShut(before, value + "\n");
  }

  // ---------------------------------------------------------------- modules

  predicate PlainRef(ref: SecretRef) {
    PlainPath(ref.name) && PlainPath(ref.key)
  }

  lemma PlainSecretPath(ref: SecretRef)
    requires PlainRef(ref)
    ensures PlainPath(SecretPath(ref))
  {
    assert PlainPath("/etc/freeradius") && PlainPath("/secrets/");
  }

  /** The template of a module prints exactly the references that PrintedRefs says, in order. */
  lemma PiecesPrintRefs(m: ModuleConfig, path: string)
    requires m.enabled && m.rawConfig == "" && ConfigPresent(m)
    ensures Ref(path) in ModulePieces(m) <==> exists ref :: ref in PrintedRefs(m) && path == SecretPath(ref)
  {
    assert forall ref :: ref in PrintedRefs(m) ==> Ref(SecretPath(ref)) in ModulePieces(m);
  }

  /** Every marker in the text begins one of these references. */
  ghost predicate AllOwn(text: string, refs: seq<SecretRef>) {
    forall i: nat | OccursAt(text, MARKER, i) :: BeginsOne(text, refs, i)
  }

  predicate BeginsOne(text: string, refs: seq<SecretRef>, i: nat) {
    exists ref :: ref in refs && OccursAt(text, RefText(SecretPath(ref)), i)
  }

  lemma OwnPieces(pieces: seq<Piece>, refs: seq<SecretRef>)
    requires PlainPieces(pieces)
    requires forall piece | piece in pieces && piece.Ref? :: exists ref :: ref in refs && piece.path == SecretPath(ref)
    ensures AllOwn(TextOf(pieces), refs)
  {
    forall i: nat | OccursAt(TextOf(pieces), MARKER, i)
      ensures BeginsOne(TextOf(pieces), refs, i)
    {
      var path := MarkersAreReferences(pieces, i);
      assert Ref(path).Ref?;
      var ref :| ref in refs && path == SecretPath(ref);
    }
  }

  lemma OccursInMiddle(middle: string, after: string, sub: string, j: nat)
    requires after != "" && after[0] !in sub && j < |middle|
    ensures OccursAt(middle + after, sub, j) <==> OccursAt(middle, sub, j)
  {
    var s := middle + after;
    assert j + |sub| <= |middle| ==> s[j..j + |sub|] == middle[j..j + |sub|];
    if OccursAt(s, sub, j) && j + |sub| > |middle| {
      CharOfOccurrence(s, sub, j, |middle| - j);
    }
  }

  lemma NoMarkerBefore(before: string, rest: string, i: nat)
    requires NoDollar(before) && OccursAt(before + rest, MARKER, i)
    ensures |before| <= i
  {
    CharOfOccurrence(before + rest, MARKER, i, 0);
  }

  /** A value in double quotes, between text without `$` and text whose markers are own ones. */
  lemma OwnInMiddle(before: string, middle: string, after: string, refs: seq<SecretRef>, j: nat)
    requires after != "" && after[0] == '"' && AllOwn(before + (middle + after), refs) && OccursAt(middle, MARKER, j)
    requires forall ref | ref in refs :: '"' !in RefText(SecretPath(ref))
    ensures BeginsOne(middle, refs, j)
  {
    var inner := middle + after;
    assert '"' !in MARKER;
    hide OccursAt, RefText, SecretPath, PlainPath, NoDollar;
    OccursInMiddle(middle, after, MARKER, j);
    OccursInRest(before, inner, |before| + j, MARKER);
    assert BeginsOne(before + inner, refs, |before| + j);
    var ref :| ref in refs && OccursAt(before + inner, RefText(SecretPath(ref)), |before| + j);
    OccursInRest(before, inner, |before| + j, RefText(SecretPath(ref)));
    OccursInMiddle(middle, after, RefText(SecretPath(ref)), j);
  }

  lemma MarkersBetween(before: string, middle: string, after: string, refs: seq<SecretRef>)
    requires NoDollar(before) && after != "" && after[0] == '"' && AllOwn(after, refs)
    requires forall ref | ref in refs :: PlainPath(SecretPath(ref))
    ensures AllOwn(before + (middle + after), refs) <==> AllOwn(middle, refs)
  {
    var inner := middle + after;
    assert '"' !in MARKER;
    forall ref | ref in refs
      ensures '"' !in RefText(SecretPath(ref))
    {
    }
    hide OccursAt, RefText, SecretPath, PlainPath, NoDollar, BeginsOne;
    if AllOwn(middle, refs) {
      forall i: nat | OccursAt(before + inner, MARKER, i)
        ensures BeginsOne(before + inner, refs, i)
      {
        NoMarkerBefore(before, inner, i);
        OccursInRest(before, inner, i, MARKER);
        OwnBehind(before, middle, after, refs, i);
      }
    }
    if AllOwn(before + inner, refs) {
      forall j: nat | OccursAt(middle, MARKER, j)
        ensures BeginsOne(middle, refs, j)
      {
        OwnInMiddle(before, middle, after, refs, j);
      }
    }
  }

  lemma OwnBehind(before: string, middle: string, after: string, refs: seq<SecretRef>, i: nat)
    requires after != "" && after[0] == '"' && AllOwn(after, refs) && AllOwn(middle, refs)
    requires forall ref | ref in refs :: '"' !in RefText(SecretPath(ref))
    requires |before| <= i && OccursAt(middle + after, MARKER, i - |before|)
    ensures BeginsOne(before + (middle + after), refs, i)
  {
    var j := i - |before|;
    assert '"' !in MARKER;
    if j < |middle| {
      OccursInMiddle(middle, after, MARKER, j);
      assert BeginsOne(middle, refs, j);
      var ref :| ref in refs && OccursAt(middle, RefText(SecretPath(ref)), j);
      OccursInMiddle(middle, after, RefText(SecretPath(ref)), j);
      OccursInRest(before, middle + after, i, RefText(SecretPath(ref)));
    } else {
      OccursInRest(middle, after, j, MARKER);
      assert BeginsOne(after, refs, j - |middle|);
      var ref :| ref in refs && OccursAt(after, RefText(SecretPath(ref)), j - |middle|);
      OccursInRest(middle, after, j, RefText(SecretPath(ref)));
      OccursInRest(before, middle + after, i, RefText(SecretPath(ref)));
    }
  }

  lemma URIInField(uri: string, rest: string)
    ensures FieldText("connect_uri", InDouble(uri)) + rest ==
            (FOUR + ("connect_uri" + (" = " + "\""))) + (uri + ("\"\n" + rest))
  {
    var key := FOUR + ("connect_uri" + (" = " + "\""));
    Push5(FOUR, "connect_uri", " = ", InDouble(uri), "\n", rest);
    assert InDouble(uri) + ("\n" + rest) == "\"" + (uri + ("\"\n" + rest));
    Assoc4(FOUR, "connect_uri", " = ", "\"" + (uri + ("\"\n" + rest)));
    assert key + (uri + ("\"\n" + rest)) == FOUR + ("connect_uri" + (" = " + ("\"" + (uri + ("\"\n" + rest)))));
  }

  function AuthText(c: RESTConfig): string {
    if c.auth != "" then FieldText("auth", c.auth) else ""
  }

  /** What follows the URL, cut at the reference. */
  function AfterURI(c: RESTConfig): seq<Piece> {
    if c.password.Some? then
      [Lit("\"\n" + (AuthText(c) + (FOUR + "password = \""))), Ref(SecretPath(c.password.value)),
       Lit("\"\n" + RESTStages(c))]
    else [Lit("\"\n" + (AuthText(c) + RESTStages(c)))]
  }

  function BeforeURI(name: string): string {
    Opening("rest", name) + (FOUR + ("connect_uri" + (" = " + "\"")))
  }

  lemma HeadSplits(name: string, c: RESTConfig, rest: string)
    ensures RESTHead(name, c) + rest == BeforeURI(name) + (c.connectURI + ("\"\n" + (AuthText(c) + rest)))
  {
    var opening, key := Opening("rest", name), FOUR + ("connect_uri" + (" = " + "\""));
    hide Opening, FieldText, InDouble;
    Push3(opening, FieldText("connect_uri", InDouble(c.connectURI)), AuthText(c), rest);
    URIInField(c.connectURI, AuthText(c) + rest);
    Assoc(opening, key, c.connectURI + ("\"\n" + (AuthText(c) + rest)));
  }

  lemma OnePieceText(t: string)
    ensures TextOf([Lit(t)]) == t
  {
    assert [Lit(t)][1..] == [] && t + "" == t;
  }

  lemma ThreePiecesText(a: string, path: string, b: string)
    ensures TextOf([Lit(a), Ref(path), Lit(b)]) == a + (RefText(path) + b)
  {
    var pieces := [Lit(a), Ref(path), Lit(b)];
    assert pieces[1..] == [Ref(path), Lit(b)] && [Ref(path), Lit(b)][1..] == [Lit(b)];
    OnePieceText(b);
  }

  lemma RESTSplits(name: string, c: RESTConfig)
    ensures TextOf(RESTPieces(name, c)) == BeforeURI(name) + (c.connectURI + TextOf(AfterURI(c)))
  {
    var head, stages := RESTHead(name, c), RESTStages(c);
    if c.password.Some? {
      var path, quote := SecretPath(c.password.value), FOUR + "password = \"";
      ThreePiecesText(head + quote, path, "\"\n" + stages);
      ThreePiecesText("\"\n" + (AuthText(c) + quote), path, "\"\n" + stages);
      hide RESTHead, RESTStages, AuthText, TextOf, BeforeURI;
      Assoc(head, quote, RefText(path) + ("\"\n" + stages));
      HeadSplits(name, c, quote + (RefText(path) + ("\"\n" + stages)));
      Push3("\"\n", AuthText(c), quote, RefText(path) + ("\"\n" + stages));
    } else {
      OnePieceText(head + stages);
      OnePieceText("\"\n" + (AuthText(c) + stages));
      HeadSplits(name, c, stages);
    }
  }

  lemma AfterURIIsOwn(c: RESTConfig)
    requires ValidREST(c) && (c.password.Some? ==> PlainRef(c.password.value))
    ensures TextOf(AfterURI(c)) != "" && TextOf(AfterURI(c))[0] == '"'
    ensures AllOwn(TextOf(AfterURI(c)), OptionalRef(c.password))
  {
    IdentifierIsPlain(c.auth);
    FieldsArePlain("auth", c.auth);
    StagesArePlain(c);
    assert NoDollar(AuthText(c)) && NoDollar("\"\n") && NoDollar(FOUR + "password = \"");
    NoDollarIsShut("\"\n" + (AuthText(c) + (FOUR + "password = \"")));
    NoDollarIsShut("\"\n" + RESTStages(c));
    NoDollarIsShut("\"\n" + (AuthText(c) + RESTStages(c)));
    if c.password.Some? {
      PlainSecretPath(c.password.value);
      ThreePiecesText("\"\n" + (AuthText(c) + (FOUR + "password = \"")), SecretPath(c.password.value),
                      "\"\n" + RESTStages(c));
      assert c.password.value in OptionalRef(c.password);
    } else {
      OnePieceText("\"\n" + (AuthText(c) + RESTStages(c)));
    }
    hide AuthText, RESTStages, Shut, SecretPath;
    OwnPieces(AfterURI(c), OptionalRef(c.password));
  }

  lemma RESTMarkers(name: string, c: RESTConfig)
    requires ValidIdentifier(name) && ValidREST(c) && (c.password.Some? ==> PlainRef(c.password.value))
    ensures AllOwn(TextOf(RESTPieces(name, c)), OptionalRef(c.password)) <==>
            AllOwn(c.connectURI, OptionalRef(c.password))
  {
    OpeningIsPlain("rest", name);
    assert NoDollar(FOUR + ("connect_uri" + (" = " + "\"")));
    RESTSplits(name, c);
    AfterURIIsOwn(c);
    if c.password.Some? {
      PlainSecretPath(c.password.value);
    }
    MarkersBetween(BeforeURI(name), c.connectURI, TextOf(AfterURI(c)), OptionalRef(c.password));
  }

  lemma PlainLiteralsAreShut(pieces: seq<Piece>)
    requires forall piece | piece in pieces && piece.Lit? :: NoDollar(piece.text)
    ensures forall piece | piece in pieces && piece.Lit? :: Shut(piece.text)
  {
    forall piece | piece in pieces && piece.Lit?
      ensures Shut(piece.text)
    {
      NoDollarIsShut(piece.text);
    }
  }

  lemma LiteralsAreShut(m: ModuleConfig)
    requires m.rawConfig == "" && ConfigPresent(m) && ValidModule(m) && m.moduleType != "rlm_rest"
    ensures forall piece | piece in ModulePieces(m) && piece.Lit? :: Shut(piece.text)
  {
    hide Shut, NoDollar;
    match m.moduleType {
      case "rlm_sql" => SQLIsPlain(m.name, m.sql.value); PlainLiteralsAreShut(SQLPieces(m.name, m.sql.value));
      case "rlm_ldap" => LDAPIsPlain(m.name, m.ldap.value); PlainLiteralsAreShut(LDAPPieces(m.name, m.ldap.value));
      case "rlm_eap" => EAPIsPlain(m.name, m.eap.value); NoDollarIsShut(EAPText(m.name, m.eap.value));
      case "rlm_redis" => RedisIsPlain(m.name, m.redis.value); PlainLiteralsAreShut(RedisPieces(m.name, m.redis.value));
      case "rlm_files" => FilesIsShut(m.name, m.files.value);
      case _ =>
    }
  }

  /** The references of an enabled, validated, templated module, exactly: every marker in its text
      begins a reference to its own password, if and only if this holds of the URL that a REST module
      connects to, which no check keeps from holding others. */
  lemma ModuleMarkersExactly(m: ModuleConfig)
    requires m.enabled && m.rawConfig == "" && ConfigPresent(m) && ValidModule(m)
    requires forall ref | ref in PrintedRefs(m) :: PlainRef(ref)
    ensures AllOwn(TextOf(ModulePieces(m)), PrintedRefs(m)) <==>
            (m.moduleType == "rlm_rest" ==> AllOwn(m.rest.value.connectURI, PrintedRefs(m)))
  {
    if m.moduleType == "rlm_rest" {
      if m.rest.value.password.Some? {
        assert m.rest.value.password.value in PrintedRefs(m);
      }
      RESTMarkers(m.name, m.rest.value);
    } else {
      LiteralsAreShut(m);
      forall piece | piece in ModulePieces(m) && piece.Ref?
        ensures PlainPath(piece.path) && exists ref :: ref in PrintedRefs(m) && piece.path == SecretPath(ref)
      {
        PiecesPrintRefs(m, piece.path);
        var printed :| printed in PrintedRefs(m) && piece.path == SecretPath(printed);
        PlainSecretPath(printed);
      }
      OwnPieces(ModulePieces(m), PrintedRefs(m));
    }
  }

  function URIElsewhere(): string { "http://" + RefText("/x") }

  /** A REST module that passes every check and refers to a file that is none of its secrets. */
  lemma URIMayReferElsewhere()
    ensures ValidURI(URIElsewhere()) && !AllOwn(URIElsewhere(), [])
  {
    var uri := URIElsewhere();
    assert uri[..4] == "http" && uri[4..][..3] == "://" && "://" <= uri[4..];
    assert forall i | 0 <= i < 4 :: IsSchemeChar(uri[i]);
    assert forall i | 7 <= i < |uri| :: IsURIChar(uri[i]);
    assert uri[7..7 + |MARKER|] == MARKER;
    assert OccursAt(uri, MARKER, 7);
  }

  /** Secret coverage, on texts: where a marker of such a module begins a reference to its password,
      the Secret is mounted in the directory that the reference points into, exactly if the reference
      names one. */
  lemma OwnReferencesAreMounted(c: Cluster, clients: seq<RadiusClient>, ports: seq<Port>, m: ModuleConfig, i: nat)
    returns (ref: SecretRef)
    requires m in c.spec.modules && ConfigPresent(m) && BeginsOne(TextOf(ModulePieces(m)), PrintedRefs(m), i)
    ensures ref in PrintedRefs(m) && OccursAt(TextOf(ModulePieces(m)), RefText(SecretPath(ref)), i)
    ensures SecretPath(ref) == SecretDirectory(ref.name) + ("/" + ref.key)
    ensures Mounted(PodOf(c, FirstOfEach(Candidates(c.spec, clients)), ports), ref.name) <==> ref.name != ""
  {
    ref :| ref in PrintedRefs(m) && OccursAt(TextOf(ModulePieces(m)), RefText(SecretPath(ref)), i);
    PrintedRefsAreMounted(c, clients, ref, ports);
  }

  // ---------------------------------------------------------------- clients

  lemma {:induction false} RefsOfClients(before: string, cs: seq<ClientSpec>, path: string) returns (c: ClientSpec)
    requires Ref(path) in PiecesAfter(before, cs)
    ensures c in cs && path == SecretPath(c.secretRef)
    decreases |cs|
  {
    if path == SecretPath(cs[0].secretRef) {
      c := cs[0];
    } else {
      PiecesSplit(before, cs);
      var pieces := PiecesAfter(before, cs);
      assert pieces == [pieces[0], pieces[1]] + pieces[2..];
      c := RefsOfClients(BlockTail(cs[0].nasType), cs[1..], path);
    }
  }

  /** Every marker in clients.conf begins a reference to the secret of one of its clients. */
  lemma ClientMarkersAreReferences(cs: seq<ClientSpec>, i: nat) returns (c: ClientSpec)
    requires forall d | d in cs :: ClientMeaning.Templated(d) && PlainRef(d.secretRef)
    requires OccursAt(ClientsText(cs), MARKER, i)
    ensures c in cs && OccursAt(ClientsText(cs), SecretText(c.secretRef), i)
  {
    var pieces := PiecesAfter(Preamble(), cs);
    PreamblePlain();
    PiecesText(_ => None, Preamble(), cs);
    PiecesAreWhole(Preamble(), cs);
    forall piece | piece in pieces && piece.Ref?
      ensures PlainPath(piece.path)
    {
      var d := RefsOfClients(Preamble(), cs, piece.path);
      PlainSecretPath(d.secretRef);
    }
    var path := MarkersAreReferences(pieces, i);
    c := RefsOfClients(Preamble(), cs, path);
  }
}
