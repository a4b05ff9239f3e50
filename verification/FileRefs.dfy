/** ${file:path} references and the loop that resolves them (cmd/operator/render_clients.go). */
module FileRefs {
  import opened Wrappers
  import opened Text

  /** Where `sub` first occurs in `s` (strings.Index), if it does. */
  function Index(s: string, sub: string): (r: Option<nat>)
    ensures r.Some? ==> r.value + |sub| <= |s|
  {
    if sub <= s then Some(0)
    else if s == "" then None
    else
      var r := Index(s[1..], sub);
      if r.None? then None else Some(r.value + 1)
  }

  lemma OccursBehindFirst(s: string, sub: string, i: nat)
    requires s != ""
    ensures OccursAt(s[1..], sub, i) <==> OccursAt(s, sub, i + 1)
  {
    if i + 1 + |sub| <= |s| {
      assert s[1..][i..i + |sub|] == s[i + 1..i + 1 + |sub|];
    }
  }

  lemma {:induction false} IndexOccurs(s: string, sub: string)
    requires Index(s, sub).Some?
    ensures OccursAt(s, sub, Index(s, sub).value)
  {
    if !(sub <= s) {
      IndexOccurs(s[1..], sub);
      OccursBehindFirst(s, sub, Index(s[1..], sub).value);
    }
  }

  lemma {:induction false} IndexIsFirst(s: string, sub: string, i: nat)
    requires OccursAt(s, sub, i)
    ensures Index(s, sub).Some? && Index(s, sub).value <= i
  {
    if !(sub <= s) {
      assert i > 0;
      OccursBehindFirst(s, sub, i - 1);
      IndexIsFirst(s[1..], sub, i - 1);
    }
  }

  lemma IndexIs(s: string, sub: string, k: nat)
    requires OccursAt(s, sub, k) && forall i: nat | i < k :: !OccursAt(s, sub, i)
    ensures Index(s, sub) == Some(k)
  {
    IndexIsFirst(s, sub, k);
    IndexOccurs(s, sub);
  }

  predicate OccursAt(s: string, sub: string, i: nat) {
    i + |sub| <= |s| && s[i..i + |sub|] == sub
  }

  ghost predicate Contains(s: string, sub: string) {
    exists i: nat :: OccursAt(s, sub, i)
  }

  /** strings.Replace(s, from, to, 1). */
  function ReplaceFirst(s: string, from: string, to: string): string {
    var i := Index(s, from);
    if i.None? then s else s[..i.value] + (to + s[i.value + |from|..])
  }

  /** White space as strings.TrimSpace knows it. */
  predicate IsSpace(c: char) {
    c in "\t\n\U{0B}\U{0C}\r \U{85}\U{A0}\U{1680}\U{2028}\U{2029}\U{202F}\U{205F}\U{3000}" ||
      '\U{2000}' <= c <= '\U{200A}'
  }

  function Trim(s: string): (r: string)
    ensures r == "" || (!IsSpace(r[0]) && !IsSpace(r[|r| - 1]))
    decreases |s|
  {
    if s == "" then ""
    else if IsSpace(s[0]) then Trim(s[1..])
    else if IsSpace(s[|s| - 1]) then Trim(s[..|s| - 1])
    else s
  }

  predicate AllSpace(s: string) {
    forall c | c in s :: IsSpace(c)
  }

  predicate Cut(s: string, a: string, t: string, b: string) {
    s == a + (t + b) && AllSpace(a) && AllSpace(b) && (t != "" ==> !IsSpace(t[0]) && !IsSpace(t[|t| - 1]))
  }

  /** The text without the white space around it. */
  ghost predicate Trims(s: string, t: string) {
    exists a, b :: Cut(s, a, t, b)
  }

  /** Blanks, tabs and line ends are white space, and no character that prints is. */
  lemma SpacesAre(c: char)
    ensures c in " \t\n\r" ==> IsSpace(c)
    ensures '!' <= c <= '~' ==> !IsSpace(c)
  {
    var spaces := "\t\n\U{0B}\U{0C}\r \U{85}\U{A0}\U{1680}\U{2028}\U{2029}\U{202F}\U{205F}\U{3000}";
    assert spaces[0] == '\t' && spaces[1] == '\n' && spaces[4] == '\r' && spaces[5] == ' ';
    assert forall k | 0 <= k < |spaces| :: !('!' <= spaces[k] <= '~');
    var few := " \t\n\r";
    assert forall k | 0 <= k < |few| :: few[k] in spaces;
  }

  lemma EndsOfThree(a: string, t: string, b: string)
    requires a + (t + b) != ""
    ensures (a + (t + b))[0] == if a != "" then a[0] else if t != "" then t[0] else b[0]
    ensures var s := a + (t + b);
            s[|s| - 1] == if b != "" then b[|b| - 1] else if t != "" then t[|t| - 1] else a[|a| - 1]
  {
  }

  lemma FrontCut(s: string, a: string, t: string, b: string) returns (a': string, b': string)
    requires s != "" && IsSpace(s[0]) && Cut(s, a, t, b)
    ensures Cut(s[1..], a', t, b')
  {
    hide IsSpace;
    EndsOfThree(a, t, b);
    a', b' := a, b;
    if a != "" {
      a' := a[1..];
      assert s[1..] == a' + (t + b);
    } else if t == "" {
      b' := b[1..];
      assert s == b && s[1..] == "" + ("" + b');
    }
  }

  lemma BackCut(s: string, a: string, t: string, b: string) returns (a': string, b': string)
    requires s != "" && IsSpace(s[|s| - 1]) && Cut(s, a, t, b)
    ensures Cut(s[..|s| - 1], a', t, b')
  {
    hide IsSpace;
    EndsOfThree(a, t, b);
    a', b' := a, b;
    if b != "" {
      b' := b[..|b| - 1];
      assert s[..|s| - 1] == a + (t + b');
    } else if t == "" {
      a' := a[..|a| - 1];
      assert s == a && s[..|s| - 1] == a' + ("" + "");
    }
  }

  lemma SpaceInFront(s: string, t: string)
    requires s != "" && IsSpace(s[0])
    ensures Trims(s, t) <==> Trims(s[1..], t)
  {
    hide AllSpace, IsSpace;
    if a, b :| Cut(s[1..], a, t, b) {
      assert s == ([s[0]] + a) + (t + b);
      MoreSpace(s[0], a);
      assert Cut(s, [s[0]] + a, t, b);
    }
    if a, b :| Cut(s, a, t, b) {
      var a', b' := FrontCut(s, a, t, b);
      assert Cut(s[1..], a', t, b');
    }
  }

  lemma SpaceBehind(s: string, t: string)
    requires s != "" && IsSpace(s[|s| - 1])
    ensures Trims(s, t) <==> Trims(s[..|s| - 1], t)
  {
    hide AllSpace, IsSpace;
    var n := |s| - 1;
    if a, b :| Cut(s[..n], a, t, b) {
      assert s == a + (t + (b + [s[n]]));
      MoreSpace(s[n], b);
      assert Cut(s, a, t, b + [s[n]]);
    }
    if a, b :| Cut(s, a, t, b) {
      var a', b' := BackCut(s, a, t, b);
      assert Cut(s[..n], a', t, b');
    }
  }

  lemma MoreSpace(c: char, s: string)
    requires IsSpace(c) && AllSpace(s)
    ensures AllSpace([c] + s) && AllSpace(s + [c])
  {
  }

  lemma NoSpaceAround(s: string, t: string)
    requires s != "" ==> !IsSpace(s[0]) && !IsSpace(s[|s| - 1])
    ensures Trims(s, t) <==> t == s
  {
    hide IsSpace;
    if Trims(s, t) && s != "" {
      var a, b :| Cut(s, a, t, b);
      EndsOfThree(a, t, b);
    }
    assert s == "" + (s + "");
    if t == s {
      assert Cut(s, "", s, "");
    }
  }

  /** Trim gives the text without the white space around it, and nothing else is that. */
  lemma {:induction false} TrimExactly(s: string, t: string)
    ensures Trims(s, t) <==> t == Trim(s)
    decreases |s|
  {
    hide Trims, IsSpace;
    if s != "" && IsSpace(s[0]) {
      SpaceInFront(s, t);
      TrimExactly(s[1..], t);
    } else if s != "" && IsSpace(s[|s| - 1]) {
      SpaceBehind(s, t);
      TrimExactly(s[..|s| - 1], t);
    } else {
      NoSpaceAround(s, t);
    }
  }

  const MARKER: string := "${file:"

  function RefText(path: string): string {
    MARKER + (path + "}")
  }

  /** The files that can be read, as os.ReadFile sees them. */
  type Files = string -> Option<string>

  /** Where the first reference starts and ends: the marker and the first brace after it. */
  function FirstRef(content: string): (r: Option<(nat, nat)>)
    ensures r.Some? ==> r.value.0 + |MARKER| < r.value.1 <= |content|
  {
    var start := Index(content, MARKER);
    if start.None? then None
    else
      var end := Index(content[start.value..], "}");
      if end.None? then None
      else
        MarkerHasNoBrace(content, start.value, end.value);
        Some((start.value, start.value + end.value + 1))
  }

  /** The path that the first reference names. */
  function RefPath(content: string): string
    requires FirstRef(content).Some?
  {
    var (start, end) := FirstRef(content).value;
    content[start + |MARKER|..end - 1]
  }

  /** One turn of the loop; None when the loop leaves the content as it is and stops. */
  function Step(files: Files, content: string): Option<string> {
    var found := FirstRef(content);
    if found.None? then None
    else
      var (start, end) := found.value;
      var data := files(RefPath(content));
      if data.None? then None else Some(ReplaceFirst(content, content[start..end], Trim(data.value)))
  }

  /** The first marker and the first brace after it, said outright. */
  predicate RefAt(content: string, start: nat, end: nat) {
    && OccursAt(content, MARKER, start) && (forall i: nat | i < start :: !OccursAt(content, MARKER, i))
    && start + |MARKER| < end <= |content| && content[end - 1] == '}' && '}' !in content[start..end - 1]
  }

  lemma CharOfOccurrence(s: string, sub: string, i: nat, k: nat)
    requires OccursAt(s, sub, i) && k < |sub|
    ensures s[i + k] == sub[k]
  {
    assert s[i..i + |sub|][k] == s[i + k];
  }

  lemma NotInside(s: string, marker: string, start: nat, c: char, end: nat)
    requires OccursAt(s, marker, start) && OccursAt(s[start..], [c], end)
    requires forall i | 0 <= i < |marker| :: marker[i] != c
    ensures |marker| <= end
  {
    CharOfOccurrence(s[start..], [c], end, 0);
    if end < |marker| {
      CharOfOccurrence(s, marker, start, end);
    }
  }

  lemma MarkerHasNoBrace(content: string, start: nat, end: nat)
    requires Index(content, MARKER) == Some(start) && Index(content[start..], "}") == Some(end)
    ensures |MARKER| <= end
  {
    IndexOccurs(content, MARKER);
    IndexOccurs(content[start..], "}");
    NotInside(content, MARKER, start, '}', end);
  }

  /** The loop ends on this content, after that many turns and with that result. */
  predicate EndsWith(files: Files, content: string, turns: nat, result: string)
    decreases turns
  {
    match Step(files, content)
    case None => turns == 0 && result == content
    case Some(next) => turns > 0 && EndsWith(files, next, turns - 1, result)
  }

  lemma EndsWithRest(files: Files, content: string, turns: nat, result: string)
    requires Step(files, content).None?
    ensures EndsWith(files, content, turns, result) <==> turns == 0 && result == content
  {
  }

  lemma EndsWithStep(files: Files, content: string, next: string, turns: nat, result: string)
    requires Step(files, content) == Some(next)
    ensures EndsWith(files, content, turns, result) <==> turns > 0 && EndsWith(files, next, turns - 1, result)
  {
  }

  ghost predicate Ends(files: Files, content: string, result: string) {
    exists turns: nat :: EndsWith(files, content, turns, result)
  }

  ghost predicate Terminates(files: Files, content: string) {
    exists turns: nat, result :: EndsWith(files, content, turns, result)
  }

  lemma IndexMeans(s: string, sub: string)
    requires Index(s, sub).Some?
    ensures OccursAt(s, sub, Index(s, sub).value) && forall i: nat | i < Index(s, sub).value :: !OccursAt(s, sub, i)
  {
    IndexOccurs(s, sub);
    forall i: nat | i < Index(s, sub).value
      ensures !OccursAt(s, sub, i)
    {
      if OccursAt(s, sub, i) {
        IndexIsFirst(s, sub, i);
      }
    }
  }

  lemma BraceIsFirst(s: string, end: nat)
    requires Index(s, "}") == Some(end)
    ensures end < |s| && s[end] == '}' && '}' !in s[..end]
  {
    IndexMeans(s, "}");
    hide Index;
    assert s[end..end + 1][0] == s[end];
    forall i | 0 <= i < end
      ensures s[i] != '}'
    {
      assert !OccursAt(s, "}", i);
    }
  }

  lemma FoundStands(content: string)
    requires FirstRef(content).Some?
    ensures RefAt(content, FirstRef(content).value.0, FirstRef(content).value.1)
  {
    var (start, end) := FirstRef(content).value;
    var rest := content[start..];
    IndexMeans(content, MARKER);
    BraceIsFirst(rest, end - start - 1);
    hide Index, FirstRef, OccursAt;
    assert rest[end - start - 1] == content[end - 1];
    assert content[start..end - 1] == rest[..end - start - 1];
  }

  lemma StandingIsFound(content: string, start: nat, end: nat)
    requires RefAt(content, start, end)
    ensures FirstRef(content).Some?
  {
    IndexIs(content, MARKER, start);
    hide Index;
    assert content[start..][end - 1 - start..end - start] == "}";
    IndexIsFirst(content[start..], "}", end - 1 - start);
  }

  /** A reference that stands first is the one that is found, and nothing else is. */
  lemma FirstRefMeans(content: string)
    ensures FirstRef(content).Some? ==> RefAt(content, FirstRef(content).value.0, FirstRef(content).value.1)
    ensures FirstRef(content).None? ==> forall start: nat, end: nat :: !RefAt(content, start, end)
  {
    hide FirstRef, RefAt;
    if FirstRef(content).Some? {
      FoundStands(content);
    }
    forall start: nat, end: nat | RefAt(content, start, end)
      ensures FirstRef(content).Some?
    {
      StandingIsFound(content, start, end);
    }
  }

  /** The text with the reference replaced by the trimmed content of its file, if that can be read. */
  function Spliced(files: Files, content: string, start: nat, end: nat): Option<string>
    requires RefAt(content, start, end)
  {
    var data := files(content[start + |MARKER|..end - 1]);
    if data.None? then None else Some(content[..start] + (Trim(data.value) + content[end..]))
  }

  lemma StepSplices(files: Files, content: string, start: nat, end: nat)
    requires RefAt(content, start, end)
    ensures Step(files, content) == Spliced(files, content, start, end)
  {
    hide Index, Trim;
    var before, path, after := content[..start], content[start + |MARKER|..end - 1], content[end..];
    assert RefText(path) == content[start..end];
    assert content == before + (RefText(path) + after);
    forall i: nat
      ensures !OccursAt(before, MARKER, i)
    {
      if i + |MARKER| <= |before| {
        assert !OccursAt(content, MARKER, i);
        assert before[i..i + |MARKER|] == content[i..i + |MARKER|];
      }
    }
    forall i | 0 <= i < |path|
      ensures path[i] != '}'
    {
      assert path[i] == content[start..end - 1][|MARKER| + i];
    }
    StepAtRef(files, before, path, after);
  }

  /** Where the first reference stands, if there is one. */
  method FindFirstRef(content: string) returns (r: Option<(nat, nat)>)
    ensures r == FirstRef(content)
    ensures r.Some? ==> RefAt(content, r.value.0, r.value.1)
    ensures r.None? ==> forall start: nat, end: nat :: !RefAt(content, start, end)
  {
    FirstRefMeans(content);
    var start := Index(content, MARKER);
    if start.None? {
      return None;
    }
    var end := Index(content[start.value..], "}");
    if end.None? {
      return None;
    }
    return Some((start.value, start.value + end.value + 1));
  }

  /** One turn: the first reference is spliced, or nothing happens. */
  method ResolveFirst(files: Files, content: string) returns (r: Option<string>)
    ensures r == Step(files, content)
    ensures forall start: nat, end: nat | RefAt(content, start, end) :: r == Spliced(files, content, start, end)
    ensures (forall start: nat, end: nat :: !RefAt(content, start, end)) ==> r.None?
  {
    forall start: nat, end: nat | RefAt(content, start, end)
      ensures Step(files, content) == Spliced(files, content, start, end)
    {
      StepSplices(files, content, start, end);
    }
    var found := FindFirstRef(content);
    if found.None? {
      return None;
    }
    var (start, end) := found.value;
    var ref := content[start..end];
    var path := content[start + |MARKER|..end - 1];
    assert path == RefPath(content);
    hide Index, Trim, FirstRef;
    var data := files(path);
    if data.None? {
      return None;
    }
    return Some(ReplaceFirst(content, ref, Trim(data.value)));
  }

  /** The loop, on every content on which it ends. */
  method ResolveFileRefs(files: Files, content: string) returns (r: string)
    requires Terminates(files, content)
    ensures Ends(files, content, r)
  {
    ghost var turns: nat, result :| EndsWith(files, content, turns, result);
    r := content;
    ghost var left := turns;
    while true
      invariant EndsWith(files, r, left, result)
      decreases left
    {
      var next := ResolveFirst(files, r);
      if next.None? {
        EndsWithRest(files, r, left, result);
        break;
      }
      EndsWithStep(files, r, next.value, left, result);
      r := next.value;
      left := left - 1;
    }
  }

  /** The loop has one result at most, and stops there. */
  lemma {:induction false} OneResult(files: Files, content: string, turns: nat, result: string, others: nat,
      other: string)
    requires EndsWith(files, content, turns, result) && EndsWith(files, content, others, other)
    ensures turns == others && result == other && Step(files, result).None?
    decreases turns
  {
    hide Step;
    var next := Step(files, content);
    if next.Some? {
      EndsWithStep(files, content, next.value, turns, result);
      EndsWithStep(files, content, next.value, others, other);
      OneResult(files, next.value, turns - 1, result, others - 1, other);
    } else {
      EndsWithRest(files, content, turns, result);
      EndsWithRest(files, content, others, other);
    }
  }

  /** A turn changes nothing about how the loop ends. */
  lemma EndsAfterStep(files: Files, content: string, next: string, result: string)
    requires Step(files, content) == Some(next)
    ensures Ends(files, content, result) <==> Ends(files, next, result)
  {
    if turns: nat :| EndsWith(files, next, turns, result) {
      EndsWithStep(files, content, next, turns + 1, result);
    }
    if turns: nat :| EndsWith(files, content, turns, result) {
      EndsWithStep(files, content, next, turns, result);
    }
  }

  lemma EndsAtOnce(files: Files, content: string, result: string)
    requires Step(files, content).None?
    ensures Ends(files, content, result) <==> result == content
  {
    EndsWithRest(files, content, 0, content);
    if turns: nat :| EndsWith(files, content, turns, result) {
      EndsWithRest(files, content, turns, result);
    }
  }

  lemma EndsAtRest(files: Files, content: string, result: string)
    requires Ends(files, content, result)
    ensures Step(files, result).None?
  {
    var turns: nat :| EndsWith(files, content, turns, result);
    OneResult(files, content, turns, result, turns, result);
  }

  // ---------------------------------------------------------------- simultaneous substitution

  /** A text cut at its references. */
  datatype Piece = Lit(text: string) | Ref(path: string)

  function TextOf(pieces: seq<Piece>): string {
    if pieces == [] then ""
    else (if pieces[0].Lit? then pieces[0].text else RefText(pieces[0].path)) + TextOf(pieces[1..])
  }

  /** Every reference replaced at once by the trimmed content of its file. */
  function Substituted(files: Files, pieces: seq<Piece>): string {
    if pieces == [] then ""
    else ValueOf(files, pieces[0]) + Substituted(files, pieces[1..])
  }

  function ValueOf(files: Files, piece: Piece): string {
    match piece
    case Lit(text) => text
    case Ref(path) => if files(path).Some? then Trim(files(path).value) else RefText(path)
  }

  function Refs(pieces: seq<Piece>): nat {
    if pieces == [] then 0 else (if pieces[0].Ref? then 1 else 0) + Refs(pieces[1..])
  }

  /** Paths in references are read up to the first brace. */
  predicate PathsPlain(pieces: seq<Piece>) {
    forall piece | piece in pieces && piece.Ref? :: '}' !in piece.path
  }

  predicate PathsReadable(files: Files, pieces: seq<Piece>) {
    forall piece | piece in pieces && piece.Ref? :: files(piece.path).Some?
  }

  /** A text whose first character occurs in it once cannot overlap the start of itself. */
  lemma NoStraddle(before: string, marker: string, after: string, i: nat)
    requires marker != "" && forall k | 0 < k < |marker| :: marker[k] != marker[0]
    requires i < |before| && OccursAt(before + (marker + after), marker, i)
    ensures OccursAt(before, marker, i)
  {
    var s := before + (marker + after);
    assert s[|before|] == marker[0];
    if i + |marker| > |before| {
      CharOfOccurrence(s, marker, i, |before| - i);
    }
    assert i + |marker| <= |before| ==> before[i..i + |marker|] == s[i..i + |marker|];
  }

  lemma FirstOccurrence(before: string, marker: string, after: string)
    requires marker != "" && forall k | 0 < k < |marker| :: marker[k] != marker[0]
    requires !Contains(before, marker)
    ensures Index(before + (marker + after), marker) == Some(|before|)
  {
    var s := before + (marker + after);
    assert s[|before|..|before| + |marker|] == marker;
    forall i: nat | i < |before|
      ensures !OccursAt(s, marker, i)
    {
      if OccursAt(s, marker, i) {
        NoStraddle(before, marker, after, i);
      }
    }
    IndexIs(s, marker, |before|);
  }

  lemma FirstMarker(before: string, path: string, after: string)
    requires !Contains(before, MARKER)
    ensures Index(before + (RefText(path) + after), MARKER) == Some(|before|)
  {
    Assoc(MARKER, path + "}", after);
    FirstOccurrence(before, MARKER, path + "}" + after);
  }

  lemma FirstBrace(path: string, after: string)
    requires '}' !in path
    ensures Index(RefText(path) + after, "}") == Some(|MARKER| + |path|)
  {
    var s := RefText(path) + after;
    var k := |MARKER| + |path|;
    assert s[k] == '}';
    assert s[k..k + 1] == "}";
    forall i: nat | i < k
      ensures !OccursAt(s, "}", i)
    {
      assert s[i] == if i < |MARKER| then MARKER[i] else path[i - |MARKER|];
      assert i + 1 <= |s| ==> s[i..i + 1][0] == s[i] != '}';
    }
    IndexIs(s, "}", k);
  }

  lemma RefStartsWithMarker(s: string, path: string, i: nat)
    requires OccursAt(s, RefText(path), i)
    ensures OccursAt(s, MARKER, i)
  {
    assert s[i..i + |MARKER|] == s[i..i + |RefText(path)|][..|MARKER|];
  }

  lemma MiddleIs(before: string, middle: string, after: string)
    ensures (before + (middle + after))[|before|..] == middle + after
    ensures (before + (middle + after))[|before|..|before| + |middle|] == middle
    ensures (before + (middle + after))[..|before|] == before
    ensures (before + (middle + after))[|before| + |middle|..] == after
  {
  }

  lemma NoReferenceBefore(before: string, path: string, after: string, i: nat)
    requires !Contains(before, MARKER) && i < |before|
    ensures !OccursAt(before + (RefText(path) + after), RefText(path), i)
  {
    hide OccursAt;
    if OccursAt(before + (RefText(path) + after), RefText(path), i) {
      RefStartsWithMarker(before + (RefText(path) + after), path, i);
      Assoc(MARKER, path + "}", after);
      NoStraddle(before, MARKER, path + "}" + after, i);
    }
  }

  /** Replace(..., 1) hits exactly the reference that Index found. */
  lemma ReplaceHitsFirst(before: string, path: string, after: string, value: string)
    requires !Contains(before, MARKER)
    ensures ReplaceFirst(before + (RefText(path) + after), RefText(path), value) == before + (value + after)
  {
    hide Index, RefText;
    var s, ref := before + (RefText(path) + after), RefText(path);
    MiddleIs(before, ref, after);
    forall i: nat | i < |before|
      ensures !OccursAt(s, ref, i)
    {
      NoReferenceBefore(before, path, after, i);
    }
    IndexIs(s, ref, |before|);
  }

  lemma PathIs(before: string, path: string, after: string)
    ensures (before + (RefText(path) + after))[|before| + |MARKER|..|before| + |RefText(path)| - 1] == path
  {
    Assoc(MARKER, path + "}", after);
    Assoc(path, "}", after);
    Assoc(before, MARKER, path + ("}" + after));
    MiddleIs(before + MARKER, path, "}" + after);
  }

  lemma FirstRefIs(before: string, path: string, after: string)
    requires !Contains(before, MARKER) && '}' !in path
    ensures var s := before + (RefText(path) + after);
            var end := |before| + |RefText(path)|;
            && FirstRef(s) == Some((|before|, end))
            && s[|before|..end] == RefText(path)
            && RefPath(s) == path
  {
    var s := before + (RefText(path) + after);
    FirstMarker(before, path, after);
    FirstBrace(path, after);
    MiddleIs(before, RefText(path), after);
    PathIs(before, path, after);
  }

  lemma StepFrom(files: Files, content: string, start: nat, end: nat, path: string)
    requires FirstRef(content) == Some((start, end)) && RefPath(content) == path
    ensures Step(files, content) ==
            if files(path).None? then None
              else Some(ReplaceFirst(content, content[start..end], Trim(files(path).value)))
  {
  }

  /** A turn of the loop resolves the first reference, or stops at it if its file cannot be read. */
  lemma StepAtRef(files: Files, before: string, path: string, after: string)
    requires !Contains(before, MARKER) && '}' !in path
    ensures Step(files, before + (RefText(path) + after)) ==
            if files(path).None? then None else Some(before + (Trim(files(path).value) + after))
  {
    FirstRefIs(before, path, after);
    StepFrom(files, before + (RefText(path) + after), |before|, |before| + |RefText(path)|, path);
    if files(path).Some? {
      ReplaceHitsFirst(before, path, after, Trim(files(path).value));
    }
  }

  // ---------------------------------------------------------------- the loop against the one pass

  lemma PrefixClean(a: string, b: string)
    requires !Contains(a + b, MARKER)
    ensures !Contains(a, MARKER)
  {
    if i: nat :| OccursAt(a, MARKER, i) {
      assert (a + b)[i..i + |MARKER|] == a[i..i + |MARKER|];
      assert OccursAt(a + b, MARKER, i);
    }
  }

  lemma NoMarkerStops(files: Files, content: string)
    requires !Contains(content, MARKER)
    ensures Step(files, content).None?
  {
    if Index(content, MARKER).Some? {
      IndexOccurs(content, MARKER);
    }
  }

  /** A reference takes one turn and leaves its value. */
  lemma RefTurn(files: Files, before: string, path: string, rest: string, tail: string, turns: nat, result: string)
    requires '}' !in path && files(path).Some? && !Contains(before, MARKER)
    ensures EndsWith(files, before + ((RefText(path) + rest) + tail), turns, result) <==>
            turns > 0 && EndsWith(files, (before + ValueOf(files, Ref(path))) + (rest + tail), turns - 1, result)
  {
    Assoc(RefText(path), rest, tail);
    StepAtRef(files, before, path, rest + tail);
    Assoc(before, ValueOf(files, Ref(path)), rest + tail);
    EndsWithStep(files, before + (RefText(path) + (rest + tail)),
                 before + (ValueOf(files, Ref(path)) + (rest + tail)), turns, result);
  }

  /** The first piece: a literal takes no turn, a reference takes one. */
  lemma FirstPiece(files: Files, before: string, pieces: seq<Piece>, tail: string, turns: nat, result: string)
    requires pieces != [] && !Contains(before, MARKER)
    requires pieces[0].Ref? ==> '}' !in pieces[0].path && files(pieces[0].path).Some?
    ensures EndsWith(files, before + (TextOf(pieces) + tail), Refs(pieces) + turns, result) <==>
            EndsWith(files, (before + ValueOf(files, pieces[0])) + (TextOf(pieces[1..]) + tail),
                     Refs(pieces[1..]) + turns, result)
  {
    hide Step, Trim;
    var rest := TextOf(pieces[1..]);
    match pieces[0] {
      case Lit(text) => Assoc(text, rest, tail); Assoc(before, text, rest + tail);
      case Ref(path) => RefTurn(files, before, path, rest, tail, Refs(pieces) + turns, result);
    }
  }

  lemma NoPieces(files: Files, before: string, tail: string)
    ensures before + (TextOf([]) + tail) == (before + Substituted(files, [])) + tail && Refs([]) == 0
  {
    assert before + "" == before && "" + tail == tail;
  }

  lemma OtherPieces(files: Files, before: string, pieces: seq<Piece>)
    requires pieces != [] && PathsPlain(pieces) && PathsReadable(files, pieces)
    requires !Contains(before + Substituted(files, pieces), MARKER)
    ensures PathsPlain(pieces[1..]) && PathsReadable(files, pieces[1..]) && !Contains(before, MARKER)
    ensures before + Substituted(files, pieces) ==
            (before + ValueOf(files, pieces[0])) + Substituted(files, pieces[1..])
    ensures pieces[0].Ref? ==> '}' !in pieces[0].path && files(pieces[0].path).Some?
  {
    hide Trim, Index;
    assert pieces[0] in pieces;
    Assoc(before, ValueOf(files, pieces[0]), Substituted(files, pieces[1..]));
    PrefixClean(before, Substituted(files, pieces));
  }

  /** One turn per reference leads from the text to its one-pass substitution, if that holds no marker. */
  lemma {:induction false} ResolvesTo(files: Files, before: string, pieces: seq<Piece>, tail: string, turns: nat,
      result: string)
    requires PathsPlain(pieces) && PathsReadable(files, pieces)
    requires !Contains(before + Substituted(files, pieces), MARKER)
    ensures EndsWith(files, before + (TextOf(pieces) + tail), Refs(pieces) + turns, result) <==>
            EndsWith(files, (before + Substituted(files, pieces)) + tail, turns, result)
    decreases |pieces|
  {
    hide *;
    if pieces == [] {
      NoPieces(files, before, tail);
    } else {
      OtherPieces(files, before, pieces);
      ResolvesTo(files, before + ValueOf(files, pieces[0]), pieces[1..], tail, turns, result);
      FirstPiece(files, before, pieces, tail, turns, result);
    }
  }

  /** If the one-pass result holds no marker, the loop takes exactly one turn per reference and
      ends with that result. */
  lemma LoopIsOnePass(files: Files, pieces: seq<Piece>)
    requires PathsPlain(pieces) && PathsReadable(files, pieces)
    requires !Contains(Substituted(files, pieces), MARKER)
    ensures EndsWith(files, TextOf(pieces), Refs(pieces), Substituted(files, pieces))
  {
    hide Step, Trim;
    var result := Substituted(files, pieces);
    assert "" + result == result && result + "" == result && "" + (TextOf(pieces) + "") == TextOf(pieces);
    NoMarkerStops(files, result);
    EndsWithRest(files, result, 0, result);
    ResolvesTo(files, "", pieces, "", 0, result);
  }

  /** At an unreadable file the loop stops: what precedes the reference is resolved, and the
      reference and everything after it stay as they are. */
  lemma LoopStopsAtUnreadable(files: Files, pieces: seq<Piece>, path: string, after: string)
    requires PathsPlain(pieces) && PathsReadable(files, pieces)
    requires !Contains(Substituted(files, pieces), MARKER)
    requires '}' !in path && files(path).None?
    ensures EndsWith(files, TextOf(pieces) + (RefText(path) + after), Refs(pieces),
                     Substituted(files, pieces) + (RefText(path) + after))
  {
    hide Step, Trim;
    var tail := RefText(path) + after;
    var result := Substituted(files, pieces);
    assert "" + result == result && "" + (TextOf(pieces) + tail) == TextOf(pieces) + tail;
    StepAtRef(files, result, path, after);
    EndsWithRest(files, result + tail, 0, result + tail);
    ResolvesTo(files, "", pieces, tail, 0, result + tail);
  }

  /** A file whose content is a reference to itself: once the loop meets that reference it goes on
      forever, whatever stands around it. */
  lemma {:induction false} SelfReferenceNeverEnds(
      files: Files, before: string, path: string, after: string, turns: nat, result: string)
    requires !Contains(before, MARKER) && '}' !in path
    requires files(path).Some? && Trim(files(path).value) == RefText(path)
    ensures !EndsWith(files, before + (RefText(path) + after), turns, result)
    decreases turns
  {
    var content := before + (RefText(path) + after);
    StepAtRef(files, before, path, after);
    EndsWithStep(files, content, content, turns, result);
    if turns > 0 {
      SelfReferenceNeverEnds(files, before, path, after, turns - 1, result);
    }
  }
}
