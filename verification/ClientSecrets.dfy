/** The init container, end to end: printing the clients, resolving their secrets, and what the
    result says. */
module ClientSecrets {
  import opened Wrappers
  import opened Text
  import opened Specs
  import opened FileRefs
  import opened RefOutcomes
  import opened Sites
  import opened Clients
  import opened ClientMeaning

  // ---------------------------------------------------------------- the file cut at its references

  function HeadOf(c: ClientSpec): string {
    BlockHead(c.name, IpDirective(c.ip), c.ip)
  }

  function PiecesAfter(before: string, cs: seq<ClientSpec>): seq<Piece>
    decreases |cs|
  {
    if cs == [] then [Lit(before + "\n")]
    else [Lit(before + HeadOf(cs[0])), Ref(SecretPath(cs[0].secretRef))] +
         PiecesAfter(BlockTail(cs[0].nasType), cs[1..])
  }

  lemma PairText(files: Files, a: Piece, b: Piece, others: seq<Piece>)
    requires a.Lit? && b.Ref?
    ensures TextOf([a, b] + others) == a.text + (RefText(b.path) + TextOf(others))
    ensures Substituted(files, [a, b] + others) == a.text + (ValueOf(files, b) + Substituted(files, others))
    ensures Refs([a, b] + others) == 1 + Refs(others)
  {
    assert ([a, b] + others)[1..] == [b] + others;
    assert ([b] + others)[1..] == others;
    assert TextOf([b] + others) == RefText(b.path) + TextOf(others);
    assert Substituted(files, [b] + others) == ValueOf(files, b) + Substituted(files, others);
    assert Refs([b] + others) == 1 + Refs(others);
  }

  lemma Regroup(before: string, head: string, value: string, tail: string, others: string)
    ensures (before + head) + (value + (tail + others)) == before + ((head + (value + tail)) + others)
  {
    Push3(head, value, tail, others);
    Assoc(before, head, value + (tail + others));
  }

  lemma {:induction false} PiecesText(files: Files, before: string, cs: seq<ClientSpec>)
    requires forall c | c in cs :: c.rawConfig == ""
    ensures TextOf(PiecesAfter(before, cs)) == before + (BlocksText(None, cs) + "\n")
    ensures Substituted(files, PiecesAfter(before, cs)) == before + (BlocksText(Some(files), cs) + "\n")
    ensures Refs(PiecesAfter(before, cs)) == |cs|
    decreases |cs|
  {
    if cs == [] {
      assert PiecesAfter(before, cs)[1..] == [];
      assert "" + "\n" == "\n";
    } else {
      var c, tail := cs[0], BlockTail(cs[0].nasType);
      assert c in cs;
      PiecesText(files, tail, cs[1..]);
      PairText(files, Lit(before + HeadOf(c)), Ref(SecretPath(c.secretRef)), PiecesAfter(tail, cs[1..]));
      Regroup(before, HeadOf(c), SecretOf(None, c), tail, BlocksText(None, cs[1..]) + "\n");
      Regroup(before, HeadOf(c), SecretOf(Some(files), c), tail, BlocksText(Some(files), cs[1..]) + "\n");
      Assoc(ClientText(c, SecretOf(None, c)), BlocksText(None, cs[1..]), "\n");
      Assoc(ClientText(c, SecretOf(Some(files), c)), BlocksText(Some(files), cs[1..]), "\n");
    }
  }

  // ---------------------------------------------------------------- literals and paths

  predicate NoDollar(s: string) {
    '$' !in s
  }

  lemma NoDollarNoMarker(s: string)
    requires NoDollar(s)
    ensures !Contains(s, MARKER)
    ensures Index(s, MARKER).None?
  {
    forall i: nat
      ensures !OccursAt(s, MARKER, i)
    {
      assert i + |MARKER| <= |s| ==> s[i..i + |MARKER|][0] == s[i];
    }
    if Index(s, MARKER).Some? {
      IndexOccurs(s, MARKER);
    }
  }

  lemma BlockTextsPlain(c: ClientSpec)
    requires ClientMeaning.Templated(c)
    ensures NoDollar(HeadOf(c)) && NoDollar(BlockTail(c.nasType)) && '}' in BlockTail(c.nasType)
    ensures HeadOf(c) != "" && HeadOf(c)[|HeadOf(c)| - 1] == ' '
    ensures BlockTail(c.nasType)[0] == '\n'
  {
    assert NoDollar(c.name) && NoDollar(c.ip) && NoDollar(c.nasType) && NoDollar(IpDirective(c.ip));
    assert NoDollar(FieldText(IpDirective(c.ip), c.ip)) && NoDollar(FieldText("nastype", c.nasType));
    var tail := BlockTail(c.nasType);
    assert tail[|tail| - 3] == '}';
  }

  lemma PathPlain(c: ClientSpec)
    requires ClientMeaning.Templated(c)
    ensures '}' !in SecretPath(c.secretRef) && OneLine(SecretPath(c.secretRef)) && OneLine(SecretText(c.secretRef))
  {
    assert '}' !in "/etc/freeradius" && '}' !in "/secrets/";
    assert OneLine("/etc/freeradius") && OneLine("/secrets/") && OneLine(MARKER);
  }

  lemma PiecesSplit(before: string, cs: seq<ClientSpec>)
    requires cs != []
    ensures var pieces := PiecesAfter(before, cs);
            && |pieces| >= 3
            && pieces[0] == Lit(before + HeadOf(cs[0])) && pieces[1] == Ref(SecretPath(cs[0].secretRef))
            && pieces[2..] == PiecesAfter(BlockTail(cs[0].nasType), cs[1..])
            && pieces[2] == pieces[2..][0]
  {
  }

  /** The template fences every reference with a line break and the end of the block. */
  lemma {:induction false} PiecesAreFenced(before: string, cs: seq<ClientSpec>)
    requires NoDollar(before)
    requires forall c | c in cs :: ClientMeaning.Templated(c)
    ensures Fenced(PiecesAfter(before, cs)) && PathsPlain(PiecesAfter(before, cs))
    decreases |cs|
  {
    if cs == [] {
      NoDollarNoMarker(before + "\n");
    } else {
      var c, tail := cs[0], BlockTail(cs[0].nasType);
      assert c in cs;
      BlockTextsPlain(c);
      PathPlain(c);
      NoDollarNoMarker(before + HeadOf(c));
      PiecesSplit(before, cs);
      PiecesAreFenced(tail, cs[1..]);
      FenceAfter(tail, cs[1..]);
      FencedCons(PiecesAfter(before, cs));
    }
  }

  lemma FenceAfter(tail: string, cs: seq<ClientSpec>)
    requires tail != "" && tail[0] == '\n' && '}' in tail
    ensures Fence(PiecesAfter(tail, cs)[0])
  {
    assert '\n' !in MARKER;
  }

  lemma FencedCons(pieces: seq<Piece>)
    requires |pieces| >= 3 && pieces[0].Lit? && Index(pieces[0].text, MARKER).None?
    requires pieces[1].Ref? && '}' !in pieces[1].path && Fence(pieces[2])
    requires Fenced(pieces[2..]) && PathsPlain(pieces[2..])
    ensures Fenced(pieces) && PathsPlain(pieces)
  {
    forall piece | piece in pieces && piece.Ref?
      ensures '}' !in piece.path
    {
      assert pieces == pieces[..2] + pieces[2..];
    }
  }

  // ---------------------------------------------------------------- when resolving makes no new reference

  predicate ValueClean(files: Files, c: ClientSpec) {
    Index(SecretOf(Some(files), c), MARKER).None?
  }

  lemma SeamStep(before: string, head: string, value: string, rest: string)
    requires NoDollar(before) && NoDollar(head) && head != "" && head[|head| - 1] == ' '
    requires rest != "" && rest[0] == '\n'
    ensures Contains((before + head) + (value + rest), MARKER) <==> Contains(value, MARKER) || Contains(rest, MARKER)
  {
    NoDollarNoMarker(before + head);
    assert (before + head)[|before + head| - 1] == ' ';
    ContainsConcat(before + head, value + rest);
    ContainsConcat(value, rest);
  }

  /** The resolved file holds a marker exactly when the content of some secret does: the template
      separates each reference from its surroundings. */
  lemma {:induction false} CleanExactly(files: Files, before: string, cs: seq<ClientSpec>)
    requires NoDollar(before)
    requires forall c | c in cs :: ClientMeaning.Templated(c)
    ensures !Contains(Substituted(files, PiecesAfter(before, cs)), MARKER) <==>
            forall c | c in cs :: ValueClean(files, c)
    decreases |cs|
  {
    if cs == [] {
      PiecesText(files, before, cs);
      assert before + ("" + "\n") == before + "\n";
      NoDollarNoMarker(before + "\n");
    } else {
      var c, tail := cs[0], BlockTail(cs[0].nasType);
      assert cs == [c] + cs[1..];
      BlockTextsPlain(c);
      CleanExactly(files, tail, cs[1..]);
      PiecesText(files, tail, cs[1..]);
      PairText(files, Lit(before + HeadOf(c)), Ref(SecretPath(c.secretRef)), PiecesAfter(tail, cs[1..]));
      SeamStep(before, HeadOf(c), SecretOf(Some(files), c), Substituted(files, PiecesAfter(tail, cs[1..])));
      CleanMeansNone(SecretOf(Some(files), c));
    }
  }

  lemma PreamblePlain()
    ensures NoDollar(Preamble()) && '}' in Preamble()
  {
    assert NoDollar(ClientsHeader()) && NoDollar(WarningLine());
    LocalBlockPlain("localhost", "ipaddr", "127.0.0.1");
    LocalBlockPlain("localhost_v6", "ipv6addr", "::1");
  }

  lemma LocalBlockPlain(name: string, directive: string, ip: string)
    requires NoDollar(name) && NoDollar(directive) && NoDollar(ip)
    ensures var s := BlockText(name, directive, ip, "testing123", "other"); NoDollar(s) && '}' in s
  {
    assert NoDollar(FieldText(directive, ip)) && NoDollar(FieldText("nastype", "other"));
    assert NoDollar(BlockHead(name, directive, ip)) && NoDollar(BlockTail("other"));
    var tail := BlockTail("other");
    assert tail[|tail| - 3] == '}';
  }

  predicate SecretReadable(files: Files, c: ClientSpec) {
    files(SecretPath(c.secretRef)).Some?
  }

  lemma {:induction false} PiecesReadable(files: Files, before: string, cs: seq<ClientSpec>)
    requires forall c | c in cs :: SecretReadable(files, c)
    ensures PathsReadable(files, PiecesAfter(before, cs))
    decreases |cs|
  {
    if cs != [] {
      assert cs[0] in cs;
      PiecesReadable(files, BlockTail(cs[0].nasType), cs[1..]);
    }
  }

  /** An unreadable secret leaves its reference in place, and so a marker. */
  lemma CleanIsReadable(files: Files, c: ClientSpec)
    requires ValueClean(files, c)
    ensures SecretReadable(files, c)
  {
    if !SecretReadable(files, c) {
      assert SecretText(c.secretRef)[0..|MARKER|] == MARKER;
      IndexIsFirst(SecretText(c.secretRef), MARKER, 0);
    }
  }

  /** The init container: when the secrets of the clients can be read and none of them holds a
      reference marker, the loop ends after one turn per client with every secret in place. */
  lemma SecretsInPlace(files: Files, cs: seq<ClientSpec>)
    requires forall c | c in cs :: ClientMeaning.Templated(c) && ValueClean(files, c)
    ensures EndsWith(files, ClientsText(cs), |cs|, FileText(Some(files), cs))
    ensures forall c | c in cs :: SecretReadable(files, c)
  {
    hide Step, EndsWith, Trim, Index, Preamble, SecretOf, SecretReadable, ValueClean, NoDollar, PiecesAfter;
    forall c | c in cs
      ensures SecretReadable(files, c)
    {
      CleanIsReadable(files, c);
    }
    PreamblePlain();
    PiecesText(files, Preamble(), cs);
    PiecesAreFenced(Preamble(), cs);
    PiecesReadable(files, Preamble(), cs);
    CleanExactly(files, Preamble(), cs);
    LoopIsOnePass(files, PiecesAfter(Preamble(), cs));
  }

  /** The content of a client's secret, trimmed. */
  function Secret(files: Files, c: ClientSpec): string
    requires SecretReadable(files, c)
  {
    Trim(files(SecretPath(c.secretRef)).value)
  }

  lemma SecretIs(files: Files, c: ClientSpec)
    requires SecretReadable(files, c)
    ensures SecretOf(Some(files), c) == Secret(files, c)
  {
  }

  /** Each row says what its client does, and its secret is the content of the client's file without the
      white space around it. */
  ghost predicate ResolvedRows(files: Files, cs: seq<ClientSpec>, rows: seq<Row>) {
    |rows| == |cs| && forall i | 0 <= i < |cs| :: RowSays(rows[i], cs[i]) && SecretInRow(files, cs[i], rows[i])
  }

  ghost predicate SecretInRow(files: Files, c: ClientSpec, row: Row) {
    SecretReadable(files, c) && Trims(files(SecretPath(c.secretRef)).value, row.secret)
  }

  /** Each client keeps its name, address and type, has the directive of its address, and its secret is
      the content of its file without the white space around it. */
  lemma ResolvedRow(files: Files, cs: seq<ClientSpec>, i: nat)
    requires i < |cs| && SecretReadable(files, cs[i])
    ensures RowSays(RowsOf(Some(files), cs)[i], cs[i])
    ensures SecretInRow(files, cs[i], RowsOf(Some(files), cs)[i])
  {
    SecretIs(files, cs[i]);
    assert RowsOf(Some(files), cs)[i] == RowOf(Some(files), cs[i]);
    TrimExactly(files(SecretPath(cs[i].secretRef)).value, Secret(files, cs[i]));
  }

  /** Printed, resolved and read back, exactly: the two local clients and then the given clients in
      order, each with the content of its secret, if and only if every trimmed secret is one line. */
  lemma ResolvedFileParses(files: Files, cs: seq<ClientSpec>)
    requires forall c | c in cs :: ClientMeaning.Templated(c) && ValueClean(files, c)
    ensures EndsWith(files, ClientsText(cs), |cs|, FileText(Some(files), cs))
    ensures forall c | c in cs :: SecretReadable(files, c)
    ensures ParseClients(FileText(Some(files), cs)) == Some(LOCAL + RowsOf(Some(files), cs)) <==>
            forall c | c in cs :: OneLine(Secret(files, c))
    ensures ResolvedRows(files, cs, RowsOf(Some(files), cs))
  {
    hide Trim, EndsWith, ParseClients, FileText, ClientsText, RowsOf, RowSays, SecretInRow, OneLine;
    hide SecretReadable, SecretOf, ClientMeaning.Templated, ValueClean, Secret;
    SecretsInPlace(files, cs);
    FileParses(Some(files), cs);
    forall c | c in cs
      ensures SecretReadable(files, c) && SecretOf(Some(files), c) == Secret(files, c)
    {
      SecretIs(files, c);
    }
    forall i | 0 <= i < |cs|
      ensures SecretInRow(files, cs[i], RowsOf(Some(files), cs)[i])
    {
      ResolvedRow(files, cs, i);
    }
  }

  lemma TwoLines()
    ensures Trim("one\ntwo") == "one\ntwo" && !OneLine("one\ntwo") && Index("one\ntwo", MARKER).None?
  {
    var secret := "one\ntwo";
    assert Trim(secret) == secret && secret[3] == '\n' && NoDollar(secret);
    NoDollarNoMarker(secret);
  }

  /** A secret of two lines passes every check and the loop puts it in place, but the file then says
      something else. */
  lemma TwoLineSecretIsMisread(files: Files, c: ClientSpec)
    requires ClientMeaning.Templated(c) && files(SecretPath(c.secretRef)) == Some("one\ntwo")
    ensures EndsWith(files, ClientsText([c]), 1, FileText(Some(files), [c]))
    ensures ParseClients(FileText(Some(files), [c])) != Some(LOCAL + RowsOf(Some(files), [c]))
  {
    TwoLines();
    hide Trim, Index, OneLine, FileText, ClientsText, EndsWith, ParseClients, RowsOf, Templated, SecretPath;
    assert c in [c];
    ResolvedFileParses(files, [c]);
  }

  /** Before resolution the file carries no secret, only the path at which each one is mounted. */
  lemma {:induction false} RenderedFileParses(cs: seq<ClientSpec>)
    requires forall c | c in cs :: ClientMeaning.Templated(c)
    ensures ParseClients(ClientsText(cs)) == Some(LOCAL + RowsOf(None, cs))
    ensures forall i | 0 <= i < |cs| ::
              && RowSays(RowsOf(None, cs)[i], cs[i])
              && RowsOf(None, cs)[i].secret ==
                 "${file:" + (("/etc/freeradius" +
                   ("/secrets/" + (cs[i].secretRef.name + ("/" + cs[i].secretRef.key)))) + "}")
  {
    forall c | c in cs
      ensures OneLine(SecretOf(None, c))
    {
      PathPlain(c);
    }
    FileParses(None, cs);
  }
}
