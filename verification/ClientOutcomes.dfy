/** How the init container ends on a list of clients: exactly when with every secret in place, and
    exactly when at all. */
module ClientOutcomes {
  import opened Wrappers
  import opened Text
  import opened Specs
  import opened FileRefs
  import opened RefOutcomes
  import opened RefExpansion
  import opened Clients
  import opened ClientMeaning
  import opened ClientSecrets

  // ---------------------------------------------------------------- every secret in place

  /** The path of the first marker that the secret of the client brings: it runs to the first brace,
      in the secret or at the end of the client's block. */
  function MarkedPath(files: Files, c: ClientSpec): Option<string> {
    var text := SecretOf(Some(files), c) + BlockTail(c.nasType);
    if FirstRef(text).Some? then Some(RefPath(text)) else None
  }

  /** Resolving leaves the reference to the client's secret as it is: it cannot be read, or it holds
      a reference to itself. */
  predicate KeepsReference(files: Files, c: ClientSpec) {
    SecretOf(Some(files), c) == SecretText(c.secretRef)
  }

  /** The k-th client brings the first marker, its reference cannot be read, and all that follow keep
      their references. */
  predicate StopsHarmlessly(files: Files, cs: seq<ClientSpec>, k: nat) {
    && k < |cs| && (forall i | 0 <= i < k :: ValueClean(files, cs[i])) && !ValueClean(files, cs[k])
    && MarkedPath(files, cs[k]).Some? && files(MarkedPath(files, cs[k]).value).None?
    && forall i | k < i < |cs| :: KeepsReference(files, cs[i])
  }

  predicate ClientsSettle(files: Files, cs: seq<ClientSpec>) {
    (forall c | c in cs :: ValueClean(files, c)) || exists k | 0 <= k < |cs| :: StopsHarmlessly(files, cs, k)
  }

  function Lines(s: string): nat {
    multiset(s)['\n']
  }

  lemma LinesConcat(a: string, b: string)
    ensures Lines(a + b) == Lines(a) + Lines(b)
  {
  }

  lemma OneLineHasNone(s: string)
    ensures OneLine(s) <==> Lines(s) == 0
  {
    assert '\n' in s <==> '\n' in multiset(s);
  }

  lemma BlockLines(files: Option<Files>, c: ClientSpec, rest: string)
    requires c.rawConfig == ""
    ensures Lines(ClientText(c, SecretOf(files, c)) + rest) ==
            Lines(HeadOf(c)) + Lines(SecretOf(files, c)) + Lines(BlockTail(c.nasType)) + Lines(rest)
  {
    var secret, tail := SecretOf(files, c), BlockTail(c.nasType);
    LinesConcat(HeadOf(c) + (secret + tail), rest);
    LinesConcat(HeadOf(c), secret + tail);
    LinesConcat(secret, tail);
  }

  /** Of two texts of a block only the secret can differ in lines. */
  lemma SecretLines(files: Files, c: ClientSpec, a: string, b: string)
    requires ClientMeaning.Templated(c)
    ensures Lines(ClientText(c, SecretOf(Some(files), c)) + b) - Lines(b) ==
            Lines(ClientText(c, SecretOf(None, c)) + a) - Lines(a) + Lines(SecretOf(Some(files), c))
    ensures OneLine(SecretOf(Some(files), c)) <==> Lines(SecretOf(Some(files), c)) == 0
  {
    hide Trim, HeadOf, Index, Lines, BlockTail, ClientText;
    PathPlain(c);
    BlockLines(None, c, a);
    BlockLines(Some(files), c, b);
    OneLineHasNone(SecretText(c.secretRef));
    OneLineHasNone(SecretOf(Some(files), c));
  }

  lemma {:induction false} MoreLines(files: Files, cs: seq<ClientSpec>)
    requires forall c | c in cs :: ClientMeaning.Templated(c)
    ensures Lines(BlocksText(None, cs)) <= Lines(BlocksText(Some(files), cs))
    ensures Lines(BlocksText(None, cs)) == Lines(BlocksText(Some(files), cs)) ==>
            forall c | c in cs :: OneLine(SecretOf(Some(files), c))
  {
    hide Lines, ClientText, SecretOf;
    if cs != [] {
      var c := cs[0];
      assert c in cs;
      MoreLines(files, cs[1..]);
      SecretLines(files, c, BlocksText(None, cs[1..]), BlocksText(Some(files), cs[1..]));
    }
  }

  lemma SameFirstLine(head: string, a: string, b: string, rest: string, other: string)
    requires OneLine(a) && OneLine(b)
    requires head + (a + ("\n" + rest)) == head + (b + ("\n" + other))
    ensures a == b && rest == other
  {
    assert (head + (a + ("\n" + rest)))[|head|..] == a + ("\n" + rest);
    assert (head + (b + ("\n" + other)))[|head|..] == b + ("\n" + other);
    TakeWhileStops(a, "\n" + rest, c => c != '\n');
    TakeWhileStops(b, "\n" + other, c => c != '\n');
    assert ("\n" + rest)[1..] == rest && ("\n" + other)[1..] == other;
  }

  /** The block after its secret, from its second line on. */
  lemma TailLine(c: ClientSpec, secret: string, rest: string)
    requires c.rawConfig == ""
    ensures ClientText(c, secret) + rest == HeadOf(c) + (secret + ("\n" + (BlockTail(c.nasType)[1..] + rest)))
  {
    var tail := BlockTail(c.nasType);
    assert tail == "\n" + tail[1..];
    Push3(HeadOf(c), secret, tail, rest);
    Assoc("\n", tail[1..], rest);
  }

  lemma SameTail(a: string, b: string, c: string)
    requires a + b == a + c
    ensures b == c
  {
    assert (a + b)[|a|..] == b && (a + c)[|a|..] == c;
  }

  /** If the blocks read the same, the first keeps its reference, and the others read the same. */
  lemma FirstKept(files: Files, c: ClientSpec, others: seq<ClientSpec>)
    requires ClientMeaning.Templated(c) && OneLine(SecretOf(Some(files), c))
    requires BlocksText(None, [c] + others) == BlocksText(Some(files), [c] + others)
    ensures KeepsReference(files, c) && BlocksText(None, others) == BlocksText(Some(files), others)
  {
    hide Trim, Index, HeadOf;
    var tail := BlockTail(c.nasType)[1..];
    var before, after := BlocksText(None, others), BlocksText(Some(files), others);
    assert ([c] + others)[1..] == others;
    PathPlain(c);
    TailLine(c, SecretOf(None, c), before);
    TailLine(c, SecretOf(Some(files), c), after);
    hide ClientText, BlockTail, SecretPath;
    SameFirstLine(HeadOf(c), SecretOf(None, c), SecretOf(Some(files), c), tail + before, tail + after);
    SameTail(tail, before, after);
  }

  /** The blocks read the same before and after exactly if every client keeps its reference. */
  lemma {:induction false} BlocksKept(files: Files, cs: seq<ClientSpec>)
    requires forall c | c in cs :: ClientMeaning.Templated(c)
    ensures BlocksText(None, cs) == BlocksText(Some(files), cs) <==> forall c | c in cs :: KeepsReference(files, c)
  {
    if cs != [] {
      var c := cs[0];
      assert c in cs && cs == [c] + cs[1..];
      BlocksKept(files, cs[1..]);
      hide Trim, Index, HeadOf, BlockTail, SecretPath;
      if BlocksText(None, cs) == BlocksText(Some(files), cs) {
        MoreLines(files, cs);
        FirstKept(files, c, cs[1..]);
      }
    }
  }

  lemma {:induction false} SettleCons(files: Files, c: ClientSpec, others: seq<ClientSpec>)
    ensures ClientsSettle(files, [c] + others) <==>
            if ValueClean(files, c) then ClientsSettle(files, others)
            else MarkedPath(files, c).Some? && files(MarkedPath(files, c).value).None? &&
                 forall d | d in others :: KeepsReference(files, d)
  {
    hide ValueClean, MarkedPath, KeepsReference;
    var cs := [c] + others;
    assert c in cs && forall i | 0 <= i < |others| :: others[i] == cs[i + 1];
    assert forall d :: d in cs <==> d == c || d in others;
    if k :| 0 <= k < |cs| && StopsHarmlessly(files, cs, k) {
      if k == 0 {
        forall d | d in others
          ensures KeepsReference(files, d)
        {
          var i :| 0 <= i < |others| && others[i] == d;
          assert KeepsReference(files, cs[i + 1]);
        }
      } else {
        assert ValueClean(files, cs[0]) && StopsHarmlessly(files, others, k - 1);
      }
    }
    if k :| 0 <= k < |others| && StopsHarmlessly(files, others, k) {
      assert forall i | 0 < i < |cs| :: cs[i] == others[i - 1];
      assert ValueClean(files, c) ==> StopsHarmlessly(files, cs, k + 1);
    }
    if MarkedPath(files, c).Some? && files(MarkedPath(files, c).value).None? && !ValueClean(files, c) {
      assert (forall d | d in others :: KeepsReference(files, d)) ==> StopsHarmlessly(files, cs, 0);
    }
  }

  /** What a secret brings does not depend on what stands before it, nor on the blocks behind its own. */
  lemma MarkedPathIs(files: Files, before: string, c: ClientSpec, more: string)
    requires !Contains(before, MARKER) && before != "" && before[|before| - 1] == ' '
    requires ClientMeaning.Templated(c) && !ValueClean(files, c)
    ensures MarkedPath(files, c).Some?
    ensures StopsThere(files, before + SecretOf(Some(files), c) + (BlockTail(c.nasType) + more)) <==>
            files(MarkedPath(files, c).value).None?
  {
    var value, tail := SecretOf(Some(files), c), BlockTail(c.nasType);
    BlockTextsPlain(c);
    CleanMeansNone(value);
    MarkerThenBrace(value, tail);
    FirstRefInPrefix(value + tail, more);
    FirstRefAfter(before, (value + tail) + more);
    Assoc(value, tail, more);
    Assoc(before, value, tail + more);
  }

  lemma CleanAfterBlank(before: string, value: string)
    requires !Contains(before, MARKER) && before != "" && before[|before| - 1] == ' '
    ensures Index(before + value, MARKER).None? <==> Index(value, MARKER).None?
  {
    ContainsConcat(before, value);
    CleanMeansNone(value);
    CleanMeansNone(before + value);
  }

  lemma LastLiteral(before: string, cs: seq<ClientSpec>) returns (more: string)
    ensures PiecesAfter(before, cs)[0] == Lit(before + more)
  {
    more := if cs == [] then "\n" else HeadOf(cs[0]);
  }

  lemma RestKept(files: Files, tail: string, cs: seq<ClientSpec>)
    requires forall c | c in cs :: ClientMeaning.Templated(c)
    ensures var pieces := PiecesAfter(tail, cs);
            TextOf(pieces[1..]) == Substituted(files, pieces[1..]) <==> forall c | c in cs :: KeepsReference(files, c)
  {
    var pieces := PiecesAfter(tail, cs);
    var first := pieces[0].text;
    PiecesText(files, tail, cs);
    BlocksKept(files, cs);
    var before, after := BlocksText(None, cs), BlocksText(Some(files), cs);
    if TextOf(pieces[1..]) == Substituted(files, pieces[1..]) {
      SameTail(tail, before + "\n", after + "\n");
      assert (before + "\n")[..|before|] == before && (after + "\n")[..|after|] == after;
    }
    if before == after {
      SameTail(first, TextOf(pieces[1..]), Substituted(files, pieces[1..]));
    }
  }

  lemma {:induction false} SettlesExactlyForClients(files: Files, done: string, before: string, cs: seq<ClientSpec>)
    requires NoDollar(before) && !Contains(done, MARKER) && Separated(done, before) && before != ""
    requires forall c | c in cs :: ClientMeaning.Templated(c)
    requires Fenced(PiecesAfter(before, cs))
    ensures Settles(files, done, PiecesAfter(before, cs)) <==> ClientsSettle(files, cs)
    decreases |cs|
  {
    if cs != [] {
      hide Trim, Index, SecretOf, SecretPath, KeepsReference, MarkedPath, ClientsSettle;
      var c, pieces := cs[0], PiecesAfter(before, cs);
      var tail := BlockTail(c.nasType);
      var head := done + pieces[0].text;
      assert c in cs && cs == [c] + cs[1..];
      BlockTextsPlain(c);
      PiecesSplit(before, cs);
      NoDollarNoMarker(before + HeadOf(c));
      CleanConcat(done, before + HeadOf(c));
      CleanAfterBlank(head, SecretOf(Some(files), c));
      SettleCons(files, c, cs[1..]);
      if ValueClean(files, c) {
        CleanMeansNone(head + SecretOf(Some(files), c));
        assert '\n' !in MARKER;
        SettlesExactlyForClients(files, head + SecretOf(Some(files), c), tail, cs[1..]);
      } else {
        var more := LastLiteral(tail, cs[1..]);
        MarkedPathIs(files, head, c, more);
        RestKept(files, tail, cs[1..]);
        assert pieces[2..][1..] == pieces[3..];
      }
    }
  }

  /** The init container, exactly, whatever the files: it ends with every secret in place if and only
      if no secret holds a marker, or the first that does names a path there that cannot be read and
      all clients after it keep their references anyway. */
  lemma SecretsInPlaceExactly(files: Files, cs: seq<ClientSpec>)
    requires forall c | c in cs :: ClientMeaning.Templated(c)
    ensures Ends(files, ClientsText(cs), FileText(Some(files), cs)) <==> ClientsSettle(files, cs)
  {
    PreamblePlain();
    PiecesText(files, Preamble(), cs);
    PiecesAreFenced(Preamble(), cs);
    LoopIsOnePassExactly(files, PiecesAfter(Preamble(), cs));
    assert !Contains("", MARKER);
    SettlesExactlyForClients(files, "", Preamble(), cs);
  }

  // ---------------------------------------------------------------- ending at all

  lemma {:induction false} PiecesAreWhole(before: string, cs: seq<ClientSpec>)
    requires NoDollar(before)
    requires forall c | c in cs :: ClientMeaning.Templated(c)
    ensures Whole(PiecesAfter(before, cs))
    decreases |cs|
  {
    if cs == [] {
      NoDollarIsShut(before + "\n");
    } else {
      var c := cs[0];
      assert c in cs;
      BlockTextsPlain(c);
      PathPlain(c);
      NoDollarIsShut(before + HeadOf(c));
      PiecesAreWhole(BlockTail(c.nasType), cs[1..]);
    }
  }

  lemma NoDollarIsShut(t: string)
    requires NoDollar(t)
    ensures Shut(t)
  {
    NoDollarNoMarker(t);
    forall k | 0 < k < |MARKER| && k <= |t|
      ensures t[|t| - k..] != MARKER[..k]
    {
      assert t[|t| - k..][0] == t[|t| - k] && MARKER[..k][0] == '$';
    }
  }

  /** The references of the clients, in order. */
  function ClientPieces(cs: seq<ClientSpec>): seq<Piece> {
    if cs == [] then [] else [Ref(SecretPath(cs[0].secretRef))] + ClientPieces(cs[1..])
  }

  lemma {:induction false} LiteralsDoNotMatter(contents: Contents, before: string, cs: seq<ClientSpec>)
    ensures Expand(contents, {}, PiecesAfter(before, cs)) == Expand(contents, {}, ClientPieces(cs))
    decreases |cs|
  {
    var pieces := PiecesAfter(before, cs);
    if cs == [] {
      assert pieces[1..] == [];
    } else {
      LiteralsDoNotMatter(contents, BlockTail(cs[0].nasType), cs[1..]);
      PiecesSplit(before, cs);
      assert pieces[1..][1..] == pieces[2..] && pieces[1..][0] == pieces[1];
      assert ClientPieces(cs)[1..] == ClientPieces(cs[1..]);
    }
  }

  lemma {:induction false} PiecesKnown(files: Files, contents: Contents, before: string, cs: seq<ClientSpec>)
    requires forall c | c in cs :: SecretReadable(files, c) <==> SecretPath(c.secretRef) in contents
    ensures Known(contents, files, PiecesAfter(before, cs))
    decreases |cs|
  {
    if cs != [] {
      assert cs[0] in cs;
      PiecesKnown(files, contents, BlockTail(cs[0].nasType), cs[1..]);
    }
  }

  /** The init container ends, if the secrets hold markers only as whole references, exactly when
      expanding the secrets from the left, up to the first reference that cannot be read, meets no
      reference that it is inside of. */
  lemma ClientLoopEndsExactly(files: Files, contents: Contents, cs: seq<ClientSpec>)
    requires forall c | c in cs :: ClientMeaning.Templated(c)
    requires Describes(contents, files)
    requires forall c | c in cs :: SecretReadable(files, c) <==> SecretPath(c.secretRef) in contents
    ensures Terminates(files, ClientsText(cs)) <==> !Expand(contents, {}, ClientPieces(cs)).Circles?
  {
    PreamblePlain();
    PiecesText(files, Preamble(), cs);
    PiecesAreWhole(Preamble(), cs);
    PiecesKnown(files, contents, Preamble(), cs);
    TerminatesExactly(files, contents, PiecesAfter(Preamble(), cs));
    LiteralsDoNotMatter(contents, Preamble(), cs);
  }

  /** A client whose secret is a reference to itself, after clients whose secrets are in order, keeps
      the init container going forever. */
  lemma SelfReferringSecretNeverEnds(files: Files, cs: seq<ClientSpec>, k: nat)
    requires forall c | c in cs :: ClientMeaning.Templated(c)
    requires k < |cs| && forall i | 0 <= i < k :: ValueClean(files, cs[i])
    requires SecretReadable(files, cs[k]) && KeepsReference(files, cs[k])
    ensures !Terminates(files, ClientsText(cs))
  {
    hide Step, EndsWith, Trim, Index, Preamble, SecretReadable, KeepsReference, ValueClean, PiecesAfter, SecretOf;
    PreamblePlain();
    PiecesText(files, Preamble(), cs);
    assert "" + ClientsText(cs) == ClientsText(cs);
    assert !Contains("", MARKER);
    forall turns: nat, result
      ensures !EndsWith(files, ClientsText(cs), turns, result)
    {
      SelfReferenceReached(files, "", Preamble(), cs, k, turns, result);
    }
  }

  lemma ValueTurn(files: Files, before: string, path: string, rest: string, turns: nat, result: string)
    requires !Contains(before, MARKER) && '}' !in path && files(path).Some?
    ensures EndsWith(files, before + (RefText(path) + rest), turns, result) <==>
            turns > 0 && EndsWith(files, (before + ValueOf(files, Ref(path))) + rest, turns - 1, result)
  {
    hide Step;
    StepAtRef(files, before, path, rest);
    Assoc(before, ValueOf(files, Ref(path)), rest);
    EndsWithStep(files, before + (RefText(path) + rest), before + (ValueOf(files, Ref(path)) + rest), turns, result);
  }

  lemma {:induction false} SelfReferenceReached(
      files: Files, done: string, before: string, cs: seq<ClientSpec>, k: nat, turns: nat, result: string)
    requires NoDollar(before) && before != "" && !Contains(done, MARKER) && Separated(done, before)
    requires forall c | c in cs :: ClientMeaning.Templated(c)
    requires k < |cs| && forall i | 0 <= i < k :: ValueClean(files, cs[i])
    requires SecretReadable(files, cs[k]) && KeepsReference(files, cs[k])
    ensures !EndsWith(files, done + TextOf(PiecesAfter(before, cs)), turns, result)
    decreases |cs|
  {
    hide *;
    var c, tail := cs[0], BlockTail(cs[0].nasType);
    var rest := TextOf(PiecesAfter(tail, cs[1..]));
    var head, value := done + (before + HeadOf(c)), SecretOf(Some(files), c);
    assert c in cs;
    FirstReference(files, done, before, cs);
    if k == 0 {
      SelfValue(files, c);
      SelfReferenceNeverEnds(files, head, SecretPath(c.secretRef), rest, turns, result);
    } else {
      CleanIsReadable(files, c);
      NextClean(files, head, c);
      ReadableValue(files, c);
      ValueTurn(files, head, SecretPath(c.secretRef), rest, turns, result);
      if turns > 0 {
        SelfReferenceReached(files, head + value, tail, cs[1..], k - 1, turns - 1, result);
      }
    }
  }

  lemma FirstReference(files: Files, done: string, before: string, cs: seq<ClientSpec>)
    requires NoDollar(before) && before != "" && !Contains(done, MARKER) && Separated(done, before)
    requires cs != [] && ClientMeaning.Templated(cs[0])
    ensures var head := done + (before + HeadOf(cs[0]));
            && done + TextOf(PiecesAfter(before, cs)) ==
               head + (RefText(SecretPath(cs[0].secretRef)) + TextOf(PiecesAfter(BlockTail(cs[0].nasType), cs[1..])))
            && !Contains(head, MARKER) && head != "" && head[|head| - 1] == ' '
    ensures '}' !in SecretPath(cs[0].secretRef) && NoDollar(BlockTail(cs[0].nasType))
    ensures BlockTail(cs[0].nasType) != "" && forall s | s != "" :: Separated(s, BlockTail(cs[0].nasType))
  {
    hide Substituted, Index, Trim;
    var c, rest := cs[0], PiecesAfter(BlockTail(cs[0].nasType), cs[1..]);
    BlockTextsPlain(c);
    PathPlain(c);
    PairText(_ => None, Lit(before + HeadOf(c)), Ref(SecretPath(c.secretRef)), rest);
    NoDollarNoMarker(before + HeadOf(c));
    CleanConcat(done, before + HeadOf(c));
    Assoc(done, before + HeadOf(c), SecretText(c.secretRef) + TextOf(rest));
    assert '\n' !in MARKER;
  }

  lemma SelfValue(files: Files, c: ClientSpec)
    requires SecretReadable(files, c) && KeepsReference(files, c)
    ensures files(SecretPath(c.secretRef)).Some? &&
            Trim(files(SecretPath(c.secretRef)).value) == RefText(SecretPath(c.secretRef))
  {
    hide Trim;
  }

  lemma ReadableValue(files: Files, c: ClientSpec)
    requires SecretReadable(files, c)
    ensures files(SecretPath(c.secretRef)).Some? &&
            SecretOf(Some(files), c) == ValueOf(files, Ref(SecretPath(c.secretRef)))
  {
    hide Trim;
  }

  lemma NextClean(files: Files, head: string, c: ClientSpec)
    requires !Contains(head, MARKER) && head != "" && head[|head| - 1] == ' ' && ValueClean(files, c)
    ensures !Contains(head + SecretOf(Some(files), c), MARKER)
  {
    CleanAfterBlank(head, SecretOf(Some(files), c));
    CleanMeansNone(head + SecretOf(Some(files), c));
  }
}
