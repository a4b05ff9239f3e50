/** Exactly when the loop that resolves references ends with the one-pass result. */
module RefOutcomes {
  import opened Wrappers
  import opened Text
  import opened FileRefs

  // ---------------------------------------------------------------- markers in concatenations

  lemma CleanMeansNone(s: string)
    ensures Contains(s, MARKER) <==> Index(s, MARKER).Some?
  {
    if Index(s, MARKER).Some? {
      IndexOccurs(s, MARKER);
    }
    if i: nat :| OccursAt(s, MARKER, i) {
      IndexIsFirst(s, MARKER, i);
    }
  }

  predicate Separated(a: string, b: string) {
    a == "" || b == "" || a[|a| - 1] !in MARKER || b[0] !in MARKER
  }

  /** A marker in a concatenation lies on one side if the seam cannot be inside it. */
  lemma ContainsConcat(a: string, b: string)
    requires Separated(a, b)
    ensures Contains(a + b, MARKER) <==> Contains(a, MARKER) || Contains(b, MARKER)
  {
    var s := a + b;
    if i: nat :| OccursAt(a, MARKER, i) {
      assert s[i..i + |MARKER|] == a[i..i + |MARKER|];
      assert OccursAt(s, MARKER, i);
    }
    if i: nat :| OccursAt(b, MARKER, i) {
      assert s[|a| + i..|a| + i + |MARKER|] == b[i..i + |MARKER|];
      assert OccursAt(s, MARKER, |a| + i);
    }
    if i: nat :| OccursAt(s, MARKER, i) {
      OccursOnOneSide(a, b, i);
    }
  }

  lemma OccursOnOneSide(a: string, b: string, i: nat)
    requires Separated(a, b) && OccursAt(a + b, MARKER, i)
    ensures OccursAt(a, MARKER, i) || (|a| <= i && OccursAt(b, MARKER, i - |a|))
  {
    var m := (a + b)[i..i + |MARKER|];
    assert i + |MARKER| <= |a| ==> a[i..i + |MARKER|] == m;
    assert |a| <= i ==> b[i - |a|..i - |a| + |MARKER|] == m;
    if i < |a| < i + |MARKER| {
      SeamInside(a, b, i);
    }
  }

  lemma SeamInside(a: string, b: string, i: nat)
    requires OccursAt(a + b, MARKER, i) && i < |a| < i + |MARKER|
    ensures b != "" && a[|a| - 1] in MARKER && b[0] in MARKER
  {
    var m := (a + b)[i..i + |MARKER|];
    assert m[|a| - 1 - i] == a[|a| - 1] && m[|a| - 1 - i] in m;
    assert m[|a| - i] == b[0] && m[|a| - i] in m;
  }

  lemma {:induction false} IndexInPrefix(a: string, b: string, sub: string)
    requires Index(a, sub).Some?
    ensures Index(a + b, sub) == Index(a, sub)
  {
    assert sub <= a ==> sub <= a + b;
    if !(sub <= a) {
      IndexInPrefix(a[1..], b, sub);
      assert (a + b)[1..] == a[1..] + b;
      assert |sub| <= |a| && (a + b)[..|sub|] == a[..|sub|];
    }
  }

  /** What follows the first reference of a text makes no difference to it. */
  lemma FirstRefInPrefix(a: string, b: string)
    requires FirstRef(a).Some?
    ensures FirstRef(a + b) == FirstRef(a) && RefPath(a + b) == RefPath(a)
  {
    var (start, end) := FirstRef(a).value;
    IndexInPrefix(a, b, MARKER);
    assert (a + b)[start..] == a[start..] + b;
    IndexInPrefix(a[start..], b, "}");
    assert (a + b)[start + |MARKER|..end - 1] == a[start + |MARKER|..end - 1];
  }

  lemma IndexAfter(a: string, b: string, start: nat)
    requires !Contains(a, MARKER) && Separated(a, b) && Index(b, MARKER) == Some(start)
    ensures Index(a + b, MARKER) == Some(|a| + start)
  {
    IndexOccurs(b, MARKER);
    assert (a + b)[|a| + start..|a| + start + |MARKER|] == b[start..start + |MARKER|];
    forall i: nat | i < |a| + start
      ensures !OccursAt(a + b, MARKER, i)
    {
      if OccursAt(a + b, MARKER, i) {
        OccursOnOneSide(a, b, i);
        IndexIsFirst(b, MARKER, i - |a|);
      }
    }
    IndexIs(a + b, MARKER, |a| + start);
  }

  lemma SliceAfter(a: string, b: string, i: nat, j: nat)
    requires i <= j <= |b|
    ensures (a + b)[|a| + i..|a| + j] == b[i..j] && (a + b)[|a| + i..] == b[i..]
  {
  }

  /** Nor does what stands before it, if that holds no marker. */
  lemma FirstRefAfter(a: string, b: string)
    requires !Contains(a, MARKER) && Separated(a, b) && FirstRef(b).Some?
    ensures FirstRef(a + b).Some? && RefPath(a + b) == RefPath(b)
  {
    var (start, end) := FirstRef(b).value;
    IndexAfter(a, b, start);
    hide Contains, Separated, OccursAt;
    SliceAfter(a, b, start, end);
    RefOfSlices(a + b, b, |a|);
  }

  /** A text that from `n` on is another one, up to where its first marker stands, has its first reference there. */
  lemma RefOfSlices(s: string, t: string, n: nat)
    requires FirstRef(t).Some? && Index(s, MARKER) == Some(n + FirstRef(t).value.0)
    requires s[n + FirstRef(t).value.0..] == t[FirstRef(t).value.0..]
    ensures FirstRef(s).Some? && RefPath(s) == RefPath(t)
  {
    var (start, end) := FirstRef(t).value;
    assert s[n + start..][|MARKER|..end - 1 - start] == s[n + start + |MARKER|..n + end - 1];
    assert t[start..][|MARKER|..end - 1 - start] == t[start + |MARKER|..end - 1];
  }

  /** A marker that a brace follows begins a reference. */
  lemma MarkerThenBrace(a: string, b: string)
    requires Contains(a, MARKER) && '}' in b
    ensures FirstRef(a + b).Some?
  {
    CleanMeansNone(a);
    IndexInPrefix(a, b, MARKER);
    var start := Index(a, MARKER).value;
    var k :| 0 <= k < |b| && b[k] == '}';
    var t := (a + b)[start..];
    assert t[|a| - start + k] == '}';
    assert t[|a| - start + k..|a| - start + k + 1] == "}";
    IndexIsFirst(t, "}", |a| - start + k);
  }

  // ---------------------------------------------------------------- the exact outcome

  /** Literals and references in turn, the literals without markers; each literal after a reference
      starts with a character that no marker holds, and closes a brace. */
  predicate Fenced(pieces: seq<Piece>)
    decreases |pieces|
  {
    && pieces != [] && pieces[0].Lit? && Index(pieces[0].text, MARKER).None?
    && (|pieces| == 1 ||
        (|pieces| >= 3 && pieces[1].Ref? && '}' !in pieces[1].path && Fence(pieces[2]) && Fenced(pieces[2..])))
  }

  predicate Fence(piece: Piece) {
    piece.Lit? && piece.text != "" && piece.text[0] !in MARKER && '}' in piece.text
  }

  /** The content that `path` names cannot be read. */
  predicate StopsThere(files: Files, content: string) {
    FirstRef(content).Some? && files(RefPath(content)).None?
  }

  /** Whether the loop ends with the one-pass result, read off the contents of the files: resolving
      goes on as long as no value brings a marker; where one does, the reference that begins there
      must be unreadable, and the text that is left must be what its own substitution is. */
  predicate Settles(files: Files, done: string, pieces: seq<Piece>)
    requires Fenced(pieces)
    decreases |pieces|
  {
    |pieces| == 1 ||
    (var next := done + pieces[0].text + ValueOf(files, pieces[1]);
     if Index(next, MARKER).None? then Settles(files, next, pieces[2..])
     else StopsThere(files, next + pieces[2].text) && TextOf(pieces[3..]) == Substituted(files, pieces[3..]))
  }

  lemma CleanConcat(a: string, b: string)
    requires Separated(a, b) && !Contains(a, MARKER) && !Contains(b, MARKER)
    ensures !Contains(a + b, MARKER)
  {
    ContainsConcat(a, b);
  }

  lemma ThreePieces(files: Files, done: string, pieces: seq<Piece>)
    requires |pieces| >= 3 && pieces[0].Lit? && pieces[1].Ref? && pieces[2].Lit?
    ensures TextOf(pieces) == pieces[0].text + (RefText(pieces[1].path) + TextOf(pieces[2..]))
    ensures Substituted(files, pieces) == pieces[0].text + (ValueOf(files, pieces[1]) + Substituted(files, pieces[2..]))
    ensures TextOf(pieces[2..]) == pieces[2].text + TextOf(pieces[3..])
    ensures Substituted(files, pieces[2..]) == pieces[2].text + Substituted(files, pieces[3..])
  {
    assert pieces[1..][1..] == pieces[2..] && pieces[2..][1..] == pieces[3..];
    assert pieces[1..][0] == pieces[1] && pieces[2..][0] == pieces[2];
  }

  /** Once a value has brought a marker: the same reference comes first now and in the one-pass result. */
  lemma MarkedOutcome(files: Files, marked: string, left: string, substituted: string)
    requires FirstRef(marked).Some?
    ensures Ends(files, marked + left, marked + substituted) <==> StopsThere(files, marked) && left == substituted
  {
    FirstRefInPrefix(marked, left);
    FirstRefInPrefix(marked, substituted);
    assert (marked + left)[|marked|..] == left && (marked + substituted)[|marked|..] == substituted;
    if StopsThere(files, marked) {
      EndsAtOnce(files, marked + left, marked + substituted);
    } else if Ends(files, marked + left, marked + substituted) {
      EndsAtRest(files, marked + left, marked + substituted);
    }
  }

  /** Resolving one reference, or leaving it if it cannot be read. */
  lemma ValueInPlace(files: Files, before: string, path: string, after: string, result: string)
    requires !Contains(before, MARKER) && '}' !in path
    ensures Ends(files, before + (RefText(path) + after), result) <==>
            Ends(files, (before + ValueOf(files, Ref(path))) + after, result)
  {
    var value := ValueOf(files, Ref(path));
    StepAtRef(files, before, path, after);
    Assoc(before, value, after);
    if files(path).Some? {
      EndsAfterStep(files, before + (RefText(path) + after), before + (value + after), result);
    }
  }

  lemma {:induction false} SettlesExactly(files: Files, done: string, pieces: seq<Piece>)
    requires Fenced(pieces) && !Contains(done, MARKER) && Separated(done, pieces[0].text)
    ensures Ends(files, done + TextOf(pieces), done + Substituted(files, pieces)) <==> Settles(files, done, pieces)
    decreases |pieces|
  {
    var before := done + pieces[0].text;
    CleanMeansNone(pieces[0].text);
    CleanConcat(done, pieces[0].text);
    if |pieces| == 1 {
      assert pieces[1..] == [] && pieces[0].text + "" == pieces[0].text;
      NoMarkerStops(files, before);
      EndsAtOnce(files, before, before);
    } else {
      var value := ValueOf(files, pieces[1]);
      var next, fence := before + value, pieces[2].text;
      ThreePieces(files, done, pieces);
      SeveredText(done, pieces[0].text, RefText(pieces[1].path), TextOf(pieces[2..]));
      SeveredText(done, pieces[0].text, value, Substituted(files, pieces[2..]));
      ValueInPlace(files, before, pieces[1].path, TextOf(pieces[2..]), done + Substituted(files, pieces));
      CleanMeansNone(next);
      if Index(next, MARKER).None? {
        SettlesExactly(files, next, pieces[2..]);
      } else {
        MarkerThenBrace(next, fence);
        Assoc(next, fence, TextOf(pieces[3..]));
        Assoc(next, fence, Substituted(files, pieces[3..]));
        MarkedOutcome(files, next + fence, TextOf(pieces[3..]), Substituted(files, pieces[3..]));
      }
    }
  }

  lemma SeveredText(done: string, literal: string, value: string, rest: string)
    ensures done + (literal + (value + rest)) == (done + literal) + (value + rest)
    ensures done + (literal + (value + rest)) == ((done + literal) + value) + rest
  {
    Assoc(done, literal, value + rest);
    Assoc(done + literal, value, rest);
  }

  /** The substitution loop, exactly, whatever the files: it ends with the one-pass result if and
      only if that settles. */
  lemma LoopIsOnePassExactly(files: Files, pieces: seq<Piece>)
    requires Fenced(pieces)
    ensures Ends(files, TextOf(pieces), Substituted(files, pieces)) <==> Settles(files, "", pieces)
  {
    assert "" + TextOf(pieces) == TextOf(pieces) && "" + Substituted(files, pieces) == Substituted(files, pieces);
    assert !Contains("", MARKER);
    SettlesExactly(files, "", pieces);
  }
}
