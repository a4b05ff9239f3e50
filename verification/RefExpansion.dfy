/** Exactly when the loop that resolves references ends, if the files hold markers only as whole
    references: expanding from the left must not come back to a reference that it is inside of. */
module RefExpansion {
  import opened Wrappers
  import opened Text
  import opened FileRefs
  import opened RefOutcomes

  // ---------------------------------------------------------------- expansion without texts

  /** Files that can be read, cut at their references. */
  type Contents = map<string, seq<Piece>>

  /** How expanding from the left goes: to its end, up to a reference that cannot be read, or back to
      one that is being expanded. */
  datatype Fate = Completes | StopsShort | Circles

  function Expand(contents: Contents, chain: set<string>, pieces: seq<Piece>): Fate
    decreases contents.Keys - chain, |pieces|
  {
    if pieces == [] then Completes
    else match pieces[0]
      case Lit(_) => Expand(contents, chain, pieces[1..])
      case Ref(path) =>
        if path !in contents then StopsShort
        else if path in chain then Circles
        else
          var inner := Expand(contents, chain + {path}, contents[path]);
          if inner.Completes? then Expand(contents, chain, pieces[1..]) else inner
  }

  /** The loop on cut texts: after that many turns nothing is left to resolve. */
  predicate HaltsIn(contents: Contents, pieces: seq<Piece>, turns: nat)
    decreases turns, |pieces|
  {
    if pieces == [] then turns == 0
    else match pieces[0]
      case Lit(_) => HaltsIn(contents, pieces[1..], turns)
      case Ref(path) =>
        if path !in contents then turns == 0
        else turns > 0 && HaltsIn(contents, contents[path] + pieces[1..], turns - 1)
  }

  /** The turns that a complete expansion takes. */
  function Cost(contents: Contents, chain: set<string>, pieces: seq<Piece>): nat
    requires Expand(contents, chain, pieces).Completes?
    decreases contents.Keys - chain, |pieces|
  {
    if pieces == [] then 0
    else match pieces[0]
      case Lit(_) => Cost(contents, chain, pieces[1..])
      case Ref(path) => 1 + Cost(contents, chain + {path}, contents[path]) + Cost(contents, chain, pieces[1..])
  }

  lemma HaltsCons(contents: Contents, pieces: seq<Piece>, rest: seq<Piece>, turns: nat)
    requires pieces != []
    ensures HaltsIn(contents, pieces + rest, turns) <==>
            match pieces[0]
            case Lit(_) => HaltsIn(contents, pieces[1..] + rest, turns)
            case Ref(path) =>
              if path !in contents then turns == 0
              else turns > 0 && HaltsIn(contents, contents[path] + (pieces[1..] + rest), turns - 1)
  {
    assert (pieces + rest)[1..] == pieces[1..] + rest;
  }

  /** What expands completely takes its turns and leaves what follows it. */
  lemma {:induction false} CompleteExpansion(contents: Contents, chain: set<string>, pieces: seq<Piece>,
      rest: seq<Piece>, turns: nat)
    requires Expand(contents, chain, pieces).Completes?
    ensures HaltsIn(contents, pieces + rest, turns) <==>
            turns >= Cost(contents, chain, pieces) && HaltsIn(contents, rest, turns - Cost(contents, chain, pieces))
    decreases contents.Keys - chain, |pieces|
  {
    if pieces == [] {
      assert pieces + rest == rest;
    } else {
      HaltsCons(contents, pieces, rest, turns);
      match pieces[0] {
        case Lit(_) => CompleteExpansion(contents, chain, pieces[1..], rest, turns);
        case Ref(path) =>
          var inner := Cost(contents, chain + {path}, contents[path]);
          if turns > 0 {
            CompleteExpansion(contents, chain + {path}, contents[path], pieces[1..] + rest, turns - 1);
            if turns - 1 >= inner {
              CompleteExpansion(contents, chain, pieces[1..], rest, turns - 1 - inner);
            }
          }
      }
    }
  }

  /** What stops short halts, whatever follows it. */
  lemma {:induction false} ShortExpansion(contents: Contents, chain: set<string>, pieces: seq<Piece>, rest: seq<Piece>)
      returns (turns: nat)
    requires Expand(contents, chain, pieces).StopsShort?
    ensures HaltsIn(contents, pieces + rest, turns)
    decreases contents.Keys - chain, |pieces|
  {
    match pieces[0] {
      case Lit(_) =>
        turns := ShortExpansion(contents, chain, pieces[1..], rest);
        HaltsCons(contents, pieces, rest, turns);
      case Ref(path) =>
        if path !in contents {
          turns := 0;
        } else if Expand(contents, chain + {path}, contents[path]).StopsShort? {
          turns := ShortExpansion(contents, chain + {path}, contents[path], pieces[1..] + rest);
          turns := turns + 1;
        } else {
          turns := ShortExpansion(contents, chain, pieces[1..], rest);
          var inner := Cost(contents, chain + {path}, contents[path]);
          CompleteExpansion(contents, chain + {path}, contents[path], pieces[1..] + rest, turns + inner);
          turns := turns + inner + 1;
        }
        HaltsCons(contents, pieces, rest, turns);
    }
  }

  /** No reference of the chain, with anything after it, halts within so many turns. */
  ghost predicate ChainRuns(contents: Contents, chain: set<string>, turns: nat) {
    forall path, rest, n: nat | path in chain && n <= turns :: !HaltsIn(contents, [Ref(path)] + rest, n)
  }

  /** What circles does not halt: the reference that it comes back to would have to halt sooner. */
  lemma {:induction false} CircularExpansion(contents: Contents, chain: set<string>, pieces: seq<Piece>,
      rest: seq<Piece>, turns: nat)
    requires Expand(contents, chain, pieces).Circles? && ChainRuns(contents, chain, turns)
    ensures !HaltsIn(contents, pieces + rest, turns)
    decreases turns, |pieces|
  {
    HaltsCons(contents, pieces, rest, turns);
    match pieces[0] {
      case Lit(_) => CircularExpansion(contents, chain, pieces[1..], rest, turns);
      case Ref(path) =>
        if path in chain {
          assert pieces + rest == [Ref(path)] + (pieces[1..] + rest);
        } else if turns > 0 {
          if Expand(contents, chain + {path}, contents[path]).Circles? {
            LongerChainRuns(contents, chain, path, turns);
            CircularExpansion(contents, chain + {path}, contents[path], pieces[1..] + rest, turns - 1);
          } else {
            var inner := Cost(contents, chain + {path}, contents[path]);
            CompleteExpansion(contents, chain + {path}, contents[path], pieces[1..] + rest, turns - 1);
            if turns - 1 >= inner {
              CircularExpansion(contents, chain, pieces[1..], rest, turns - 1 - inner);
            }
          }
        }
    }
  }

  lemma {:induction false} LongerChainRuns(contents: Contents, chain: set<string>, path: string, turns: nat)
    requires path in contents && path !in chain && turns > 0
    requires Expand(contents, chain + {path}, contents[path]).Circles? && ChainRuns(contents, chain, turns)
    ensures ChainRuns(contents, chain + {path}, turns - 1)
    decreases turns, 0
  {
    forall other, rest, n: nat | other in chain + {path} && n <= turns - 1
      ensures !HaltsIn(contents, [Ref(other)] + rest, n)
    {
      if other == path {
        CircularExpansion(contents, chain, [Ref(path)], rest, n);
      }
    }
  }

  ghost predicate Halts(contents: Contents, pieces: seq<Piece>) {
    exists turns: nat :: HaltsIn(contents, pieces, turns)
  }

  lemma ShortHalts(contents: Contents, pieces: seq<Piece>)
    requires Expand(contents, {}, pieces).StopsShort?
    ensures Halts(contents, pieces)
  {
    var turns := ShortExpansion(contents, {}, pieces, []);
    assert pieces + [] == pieces;
  }

  lemma CompleteHalts(contents: Contents, pieces: seq<Piece>)
    requires Expand(contents, {}, pieces).Completes?
    ensures Halts(contents, pieces)
  {
    CompleteExpansion(contents, {}, pieces, [], Cost(contents, {}, pieces));
    assert pieces + [] == pieces && HaltsIn(contents, [], 0);
  }

  /** Expansion halts exactly if it does not circle. */
  lemma HaltsExactly(contents: Contents, pieces: seq<Piece>)
    ensures Halts(contents, pieces) <==> !Expand(contents, {}, pieces).Circles?
  {
    var fate := Expand(contents, {}, pieces);
    if fate.Completes? {
      CompleteHalts(contents, pieces);
    } else if fate.StopsShort? {
      ShortHalts(contents, pieces);
    } else {
      assert pieces + [] == pieces;
      forall turns: nat
        ensures !HaltsIn(contents, pieces, turns)
      {
        CircularExpansion(contents, {}, pieces, [], turns);
      }
    }
  }

  // ---------------------------------------------------------------- expansion of texts

  /** No marker in the text, and none that begins in it and could end behind it. */
  predicate Shut(t: string) {
    Index(t, MARKER).None? && forall k | 0 < k < |MARKER| && k <= |t| :: t[|t| - k..] != MARKER[..k]
  }

  predicate Whole(pieces: seq<Piece>) {
    forall piece | piece in pieces :: if piece.Lit? then Shut(piece.text) else '}' !in piece.path
  }

  /** The contents tell which of the references can be read. */
  predicate Known(contents: Contents, files: Files, pieces: seq<Piece>) {
    forall piece | piece in pieces && piece.Ref? :: files(piece.path).Some? <==> piece.path in contents
  }

  /** The contents describe files that can be read, trimmed and cut, and tell which of the references
      in these can be read; other files may be there and hold anything. */
  predicate Describes(contents: Contents, files: Files) {
    forall path | path in contents ::
      && files(path).Some? && Trim(files(path).value) == TextOf(contents[path])
      && Whole(contents[path]) && Known(contents, files, contents[path])
  }

  lemma SuffixAcross(a: string, b: string, k: nat)
    requires |b| < k <= |a| + |b| && k < |MARKER| && (a + b)[|a| + |b| - k..] == MARKER[..k]
    ensures a[|a| - (k - |b|)..] == MARKER[..k - |b|]
  {
    var n := k - |b|;
    assert a[|a| - n..] == (a + b)[|a| + |b| - k..][..n];
    assert MARKER[..k][..n] == MARKER[..n];
  }

  /** A marker in a concatenation lies on one side, or begins in the first text and ends behind it. */
  lemma MarkerAcross(a: string, b: string, i: nat)
    requires OccursAt(a + b, MARKER, i)
    ensures || OccursAt(a, MARKER, i) || (|a| <= i && OccursAt(b, MARKER, i - |a|))
            || (0 < |a| - i < |MARKER| && a[i..] == MARKER[..|a| - i])
  {
    var m := (a + b)[i..i + |MARKER|];
    assert i + |MARKER| <= |a| ==> a[i..i + |MARKER|] == m;
    assert |a| <= i ==> b[i - |a|..i - |a| + |MARKER|] == m;
    assert 0 < |a| - i < |MARKER| ==> a[i..] == m[..|a| - i];
  }

  lemma ShutHasNoBeginning(t: string, i: nat)
    requires Shut(t) && 0 < |t| - i < |MARKER|
    ensures t[i..] != MARKER[..|t| - i]
  {
    var k := |t| - i;
    assert t[|t| - k..] != MARKER[..k];
  }

  lemma NoMarkerAcross(a: string, b: string)
    requires Shut(a) && Shut(b)
    ensures Index(a + b, MARKER).None?
  {
    CleanMeansNone(a);
    CleanMeansNone(b);
    CleanMeansNone(a + b);
    if i: nat :| OccursAt(a + b, MARKER, i) {
      MarkerAcross(a, b, i);
      if 0 < |a| - i < |MARKER| {
        ShutHasNoBeginning(a, i);
      }
    }
  }

  lemma NoBeginningAcross(a: string, b: string, k: nat)
    requires Shut(a) && Shut(b) && 0 < k < |MARKER| && k <= |a + b|
    ensures (a + b)[|a + b| - k..] != MARKER[..k]
  {
    var s := a + b;
    if k <= |b| {
      assert s[|s| - k..] == b[|b| - k..];
    } else if s[|s| - k..] == MARKER[..k] {
      SuffixAcross(a, b, k);
    }
  }

  lemma ShutConcat(a: string, b: string)
    requires Shut(a) && Shut(b)
    ensures Shut(a + b)
  {
    NoMarkerAcross(a, b);
    forall k | 0 < k < |MARKER| && k <= |a + b|
      ensures (a + b)[|a + b| - k..] != MARKER[..k]
    {
      NoBeginningAcross(a, b, k);
    }
  }

  lemma {:induction false} TextConcat(a: seq<Piece>, b: seq<Piece>)
    ensures TextOf(a + b) == TextOf(a) + TextOf(b)
    decreases |a|
  {
    if a == [] {
      assert a + b == b;
    } else {
      var first := if a[0].Lit? then a[0].text else RefText(a[0].path);
      assert (a + b)[1..] == a[1..] + b;
      TextConcat(a[1..], b);
      Assoc(first, TextOf(a[1..]), TextOf(b));
    }
  }

  ghost predicate EndsIn(files: Files, content: string, turns: nat) {
    exists result :: EndsWith(files, content, turns, result)
  }

  /** On texts the loop takes the turns that it takes on their pieces. */
  lemma {:induction false} TurnsMirrored(files: Files, contents: Contents, done: string, pieces: seq<Piece>, turns: nat)
    requires Describes(contents, files) && Known(contents, files, pieces) && Whole(pieces) && Shut(done)
    ensures EndsIn(files, done + TextOf(pieces), turns) <==> HaltsIn(contents, pieces, turns)
    decreases turns, |pieces|
  {
    hide Step, Trim;
    CleanMeansNone(done);
    if pieces == [] {
      assert done + "" == done;
      NoMarkerStops(files, done);
      RestMirrored(files, done, turns);
    } else {
      var rest := TextOf(pieces[1..]);
      assert pieces[0] in pieces;
      match pieces[0] {
        case Lit(text) =>
          Assoc(done, text, rest);
          ShutConcat(done, text);
          TurnsMirrored(files, contents, done + text, pieces[1..], turns);
        case Ref(path) =>
          StepAtRef(files, done, path, rest);
          if path in contents {
            var next := contents[path] + pieces[1..];
            TextConcat(contents[path], pieces[1..]);
            StepMirrored(files, done + (RefText(path) + rest), done + TextOf(next), if turns > 0 then turns - 1 else 0);
            if turns > 0 {
              TurnsMirrored(files, contents, done, next, turns - 1);
            }
          } else {
            RestMirrored(files, done + (RefText(path) + rest), turns);
          }
      }
    }
  }

  lemma RestMirrored(files: Files, content: string, turns: nat)
    requires Step(files, content).None?
    ensures EndsIn(files, content, turns) <==> turns == 0
  {
    hide Step;
    EndsWithRest(files, content, turns, content);
    if result :| EndsWith(files, content, turns, result) {
      EndsWithRest(files, content, turns, result);
    }
  }

  lemma StepMirrored(files: Files, content: string, next: string, turns: nat)
    requires Step(files, content) == Some(next)
    ensures EndsIn(files, content, turns + 1) <==> EndsIn(files, next, turns)
    ensures !EndsIn(files, content, 0)
  {
    hide Step;
    if result :| EndsWith(files, next, turns, result) {
      EndsWithStep(files, content, next, turns + 1, result);
    }
    var more := turns + 1;
    if result :| EndsWith(files, content, more, result) {
      EndsWithStep(files, content, next, more, result);
    }
    if result :| EndsWith(files, content, 0, result) {
      EndsWithStep(files, content, next, 0, result);
    }
  }

  /** Termination, exactly: the loop ends on a text if and only if expanding its references from the
      left, up to the first that cannot be read, meets none that it is inside of. */
  lemma TerminatesExactly(files: Files, contents: Contents, pieces: seq<Piece>)
    requires Describes(contents, files) && Known(contents, files, pieces) && Whole(pieces)
    ensures Terminates(files, TextOf(pieces)) <==> !Expand(contents, {}, pieces).Circles?
  {
    hide Step, Trim;
    HaltsExactly(contents, pieces);
    var content := TextOf(pieces);
    assert "" + content == content;
    forall turns: nat
      ensures EndsIn(files, content, turns) <==> HaltsIn(contents, pieces, turns)
    {
      TurnsMirrored(files, contents, "", pieces, turns);
    }
    if turns: nat, result :| EndsWith(files, content, turns, result) {
      assert EndsIn(files, content, turns);
    }
    if turns: nat :| HaltsIn(contents, pieces, turns) {
      var result :| EndsWith(files, content, turns, result);
    }
  }
}
