/** What the printed condition means: parsing it yields the tree of the match exactly when
    every regular expression is closed, whichever connective binds tighter. */
module ConditionMeaning {
  import opened Wrappers
  import opened Specs
  import opened Text
  import opened Sanitize
  import opened Conditions

  // ---------------------------------------------------------------- the tree of a match

  function UnitTree(leaf: MatchLeaf, negate: bool): Cond {
    if negate then Not(Atom(leaf)) else Atom(leaf)
  }

  function UnitTrees(leaves: seq<MatchLeaf>, negate: bool): (r: seq<Cond>)
    ensures |r| == |leaves|
  {
    seq(|leaves|, i requires 0 <= i < |leaves| => UnitTree(leaves[i], negate))
  }

  function Chain(op: Connective, trees: seq<Cond>): Cond
    requires trees != []
  {
    if |trees| == 1 then trees[0] else Combine(op, trees[0], Chain(op, trees[1..]))
  }

  function GroupTrees(m: PolicyMatch): seq<Cond> {
    (if m.all != [] then [Chain(Conj, UnitTrees(m.all, false))] else []) +
    (if m.any != [] then [Chain(Disj, UnitTrees(m.any, false))] else []) +
    (if m.none != [] then [Chain(Conj, UnitTrees(m.none, true))] else [])
  }

  function ConditionTree(m: Option<PolicyMatch>): Cond {
    if m.None? || GroupTrees(m.value) == [] then Always else Chain(Conj, GroupTrees(m.value))
  }

  lemma {:induction false} EvalChain(op: Connective, trees: seq<Cond>, sat: MatchLeaf -> bool)
    requires trees != []
    ensures op.Conj? ==> (Eval(Chain(op, trees), sat) <==> forall i | 0 <= i < |trees| :: Eval(trees[i], sat))
    ensures op.Disj? ==> (Eval(Chain(op, trees), sat) <==> exists i | 0 <= i < |trees| :: Eval(trees[i], sat))
  {
    if |trees| > 1 {
      EvalChain(op, trees[1..], sat);
      assert trees == [trees[0]] + trees[1..];
      if op.Disj? && Eval(trees[0], sat) {
        assert Eval(Chain(op, trees), sat);
      }
    }
  }

  lemma EvalUnits(op: Connective, leaves: seq<MatchLeaf>, negate: bool, sat: MatchLeaf -> bool)
    requires leaves != []
    ensures op.Conj? ==>
            (Eval(Chain(op, UnitTrees(leaves, negate)), sat) <==> forall leaf | leaf in leaves :: sat(leaf) != negate)
    ensures op.Disj? ==>
            (Eval(Chain(op, UnitTrees(leaves, negate)), sat) <==> exists leaf | leaf in leaves :: sat(leaf) != negate)
  {
    var trees := UnitTrees(leaves, negate);
    EvalChain(op, trees, sat);
    forall i | 0 <= i < |leaves|
      ensures Eval(trees[i], sat) <==> sat(leaves[i]) != negate
      ensures leaves[i] in leaves
    {
      assert trees[i] == UnitTree(leaves[i], negate);
    }
    if op.Disj? && exists leaf | leaf in leaves :: sat(leaf) != negate {
      var leaf :| leaf in leaves && sat(leaf) != negate;
      var i :| 0 <= i < |leaves| && leaves[i] == leaf;
      assert Eval(trees[i], sat);
    }
  }

  /** The tree means what the match means: an empty Any is ignored, not false. */
  lemma TreeMeaning(m: Option<PolicyMatch>, sat: MatchLeaf -> bool)
    ensures Eval(ConditionTree(m), sat) <==> MatchHolds(m, sat)
  {
    if m.Some? {
      var groups := GroupTrees(m.value);
      if m.value.all != [] { EvalUnits(Conj, m.value.all, false, sat); }
      if m.value.any != [] { EvalUnits(Disj, m.value.any, false, sat); }
      if m.value.none != [] { EvalUnits(Conj, m.value.none, true, sat); }
      if groups != [] {
        EvalChain(Conj, groups, sat);
        MembersOfGroups(m.value, sat);
      }
    }
  }

  lemma MembersOfGroups(m: PolicyMatch, sat: MatchLeaf -> bool)
    ensures (forall i | 0 <= i < |GroupTrees(m)| :: Eval(GroupTrees(m)[i], sat)) <==>
            && (m.all != [] ==> Eval(Chain(Conj, UnitTrees(m.all, false)), sat))
            && (m.any != [] ==> Eval(Chain(Disj, UnitTrees(m.any, false)), sat))
            && (m.none != [] ==> Eval(Chain(Conj, UnitTrees(m.none, true)), sat))
  {
    var g := GroupTrees(m);
    var a := if m.all != [] then 1 else 0;
    var b := if m.any != [] then 1 else 0;
    if m.all != [] { assert g[0] == Chain(Conj, UnitTrees(m.all, false)); }
    if m.any != [] { assert g[a] == Chain(Disj, UnitTrees(m.any, false)); }
    if m.none != [] { assert g[a + b] == Chain(Conj, UnitTrees(m.none, true)); }
  }

  lemma {:induction false} ChainClosed(op: Connective, trees: seq<Cond>)
    requires trees != []
    ensures AtomsClosed(Chain(op, trees)) <==> forall i | 0 <= i < |trees| :: AtomsClosed(trees[i])
  {
    if |trees| > 1 {
      ChainClosed(op, trees[1..]);
      assert trees == [trees[0]] + trees[1..];
    }
  }

  lemma UnitsClosed(op: Connective, leaves: seq<MatchLeaf>, negate: bool)
    requires leaves != []
    ensures AtomsClosed(Chain(op, UnitTrees(leaves, negate))) <==> forall leaf | leaf in leaves :: LeafClosed(leaf)
  {
    var trees := UnitTrees(leaves, negate);
    ChainClosed(op, trees);
    forall i | 0 <= i < |leaves|
      ensures AtomsClosed(trees[i]) <==> LeafClosed(leaves[i])
    {
      assert trees[i] == UnitTree(leaves[i], negate);
    }
  }

  predicate MatchClosed(m: Option<PolicyMatch>) {
    m.Some? ==> forall leaf | leaf in m.value.all + m.value.any + m.value.none :: LeafClosed(leaf)
  }

  lemma TreeClosed(m: Option<PolicyMatch>)
    ensures AtomsClosed(ConditionTree(m)) <==> MatchClosed(m)
  {
    if m.Some? {
      var groups := GroupTrees(m.value);
      if m.value.all != [] { UnitsClosed(Conj, m.value.all, false); }
      if m.value.any != [] { UnitsClosed(Disj, m.value.any, false); }
      if m.value.none != [] { UnitsClosed(Conj, m.value.none, true); }
      if groups != [] {
        ChainClosed(Conj, groups);
      }
      var a := if m.value.all != [] then 1 else 0;
      var b := if m.value.any != [] then 1 else 0;
      if m.value.all != [] { assert groups[0] == Chain(Conj, UnitTrees(m.value.all, false)); }
      if m.value.any != [] { assert groups[a] == Chain(Disj, UnitTrees(m.value.any, false)); }
      if m.value.none != [] { assert groups[a + b] == Chain(Conj, UnitTrees(m.value.none, true)); }
    }
  }

  // ---------------------------------------------------------------- parsing what was printed

  lemma {:induction false} ScanClosed(v: string, rest: string)
    requires RegexClosed(v)
    ensures ScanRegex(v + ("/" + rest)) == Some((v, rest))
  {
    var s := v + ("/" + rest);
    if v == "" {
      assert s == "/" + rest;
    } else {
      assert BackslashRun(v, 0) == 0 && s[0] == v[0] != '/';
      var n := if v[0] == '\\' then 2 else 1;
      assert BackslashRun(v, 1) == if v[0] == '\\' then 1 else 0;
      assert v == v[..n] + v[n..] && s[..n] == v[..n] && s[n..] == v[n..] + ("/" + rest);
      ClosedExtend(v[..n], v[n..]);
      ScanClosed(v[n..], rest);
    }
  }

  lemma OperatorHasNoBlank(op: string)
    requires ValidOperator(op)
    ensures forall c | c in op :: NotBlank(c)
  {
    forall c | c in op
      ensures NotBlank(c)
    {
      var i :| 0 <= i < |op| && op[i] == c;
    }
  }

  lemma ValueHasNoClosing(v: string)
    requires ValidValue(v)
    ensures forall c | c in v :: NotClosing(c)
  {
  }

  /** The part of an atom before its value. */
  lemma HeadParses(attribute: string, operator: string, afterOperator: string)
    requires forall c | c in attribute :: IsAttributeChar(c)
    requires forall c | c in operator :: NotBlank(c)
    ensures var afterAttribute := operator + (" " + afterOperator);
            var s := attribute + (" " + afterAttribute);
            && TakeWhile(s, IsAttributeChar) == attribute
            && Strip(DropWhile(s, IsAttributeChar), " ") == Some(afterAttribute)
            && TakeWhile(afterAttribute, NotBlank) == operator
            && Strip(DropWhile(afterAttribute, NotBlank), " ") == Some(afterOperator)
  {
    var afterAttribute := operator + (" " + afterOperator);
    TakeWhileStops(attribute, " " + afterAttribute, IsAttributeChar);
    StripAppend(" ", afterAttribute);
    TakeWhileStops(operator, " " + afterOperator, NotBlank);
    StripAppend(" ", afterOperator);
  }

  lemma RegexParses(value: string, tail: string)
    requires RegexClosed(value)
    ensures Strip("/" + (value + "/") + tail, "/") == Some(value + ("/" + tail))
    ensures ScanRegex(value + ("/" + tail)) == Some((value, tail))
  {
    Push3("/", value, "/", tail);
    StripAppend("/", value + ("/" + tail));
    ScanClosed(value, tail);
  }

  lemma PlainAtomParses(attribute: string, operator: string, value: string, tail: string)
    requires attribute != "" && forall c | c in attribute :: IsAttributeChar(c)
    requires ValidOperator(operator) && !IsRegexOperator(operator) && forall c | c in operator :: NotBlank(c)
    requires forall c | c in value :: NotClosing(c)
    requires tail == "" || tail[0] == ')'
    ensures ParseAtom(attribute + (" " + (operator + (" " + (value + tail))))) ==
            Some((MatchLeaf(attribute, operator, value), tail))
  {
    HeadParses(attribute, operator, value + tail);
    TakeWhileStops(value, tail, NotClosing);
  }

  lemma RegexAtomParses(attribute: string, operator: string, value: string, tail: string)
    requires attribute != "" && forall c | c in attribute :: IsAttributeChar(c)
    requires IsRegexOperator(operator) && ValidOperator(operator) && forall c | c in operator :: NotBlank(c)
    requires RegexClosed(value)
    ensures ParseAtom(attribute + (" " + (operator + (" " + ("/" + (value + "/") + tail))))) ==
            Some((MatchLeaf(attribute, operator, value), tail))
  {
    HeadParses(attribute, operator, "/" + (value + "/") + tail);
    RegexParses(value, tail);
  }

  lemma AtomParses(leaf: MatchLeaf, rest: string)
    requires ValidLeaf(leaf) && LeafClosed(leaf)
    ensures ParseAtom(LeafBody(leaf) + (")" + rest)) == Some((leaf, ")" + rest))
  {
    LeafBodySplits(leaf, ")" + rest);
    OperatorHasNoBlank(leaf.operator);
    if IsRegexOperator(leaf.operator) {
      RegexAtomParses(leaf.attribute, leaf.operator, leaf.value, ")" + rest);
    } else {
      ValueHasNoClosing(leaf.value);
      PlainAtomParses(leaf.attribute, leaf.operator, leaf.value, ")" + rest);
    }
  }

  lemma LeafBodySplits(leaf: MatchLeaf, tail: string)
    ensures LeafBody(leaf) + tail == leaf.attribute + (" " + (leaf.operator + (" " + (ValueText(leaf) + tail))))
  {
    var a, o, v := leaf.attribute, leaf.operator, ValueText(leaf);
    Assoc(a, " " + (o + (" " + v)), tail);
    Assoc(" ", o + (" " + v), tail);
    Assoc(o, " " + v, tail);
    Assoc(" ", v, tail);
  }

  lemma LeafIsNotTrue(leaf: MatchLeaf, rest: string)
    requires ValidLeaf(leaf)
    ensures var literal := Strip(LeafBody(leaf) + rest, "true");
            literal.Some? ==> literal.value != "" && literal.value[0] != ')'
  {
    var s := LeafBody(leaf) + rest;
    LeafBodySplits(leaf, rest);
    assert s[|leaf.attribute|] == ' ';
    assert s[..|leaf.attribute|] == leaf.attribute;
    if "true" <= s && |leaf.attribute| > 4 {
      assert s[4] == leaf.attribute[4];
      assert leaf.attribute[4] in leaf.attribute;
    }
  }

  lemma UnaryOfAtom(prec: Precedence, s: string, leaf: MatchLeaf, rest: string)
    requires s != "" && s[0] != '!' && s[0] != '('
    requires ParseAtom(s) == Some((leaf, rest))
    requires Strip(s, "true").Some? ==> Strip(s, "true").value != "" && Strip(s, "true").value[0] != ')'
    ensures ParseUnary(prec, s) == Some((Atom(leaf), rest))
  {
  }

  lemma AtomIsUnary(prec: Precedence, leaf: MatchLeaf, rest: string)
    requires ValidLeaf(leaf) && LeafClosed(leaf)
    ensures ParseUnary(prec, LeafBody(leaf) + (")" + rest)) == Some((Atom(leaf), ")" + rest))
  {
    var s := LeafBody(leaf) + (")" + rest);
    AtomParses(leaf, rest);
    LeafIsNotTrue(leaf, ")" + rest);
    assert s[0] == leaf.attribute[0];
    UnaryOfAtom(prec, s, leaf, ")" + rest);
  }

  lemma UnaryIsCondition(prec: Precedence, s: string, tree: Cond, rest: string)
    requires ParseUnary(prec, s) == Some((tree, ")" + rest))
    ensures ParseLoose(prec, s) == Some((tree, ")" + rest))
  {
    assert ParseTight(prec, s) == Some((tree, ")" + rest));
  }

  lemma LeafParses(prec: Precedence, leaf: MatchLeaf, rest: string)
    requires ValidLeaf(leaf) && LeafClosed(leaf)
    ensures ParseUnary(prec, LeafText(leaf) + rest) == Some((Atom(leaf), rest))
  {
    Assoc("(", LeafBody(leaf) + ")", rest);
    Assoc(LeafBody(leaf), ")", rest);
    AtomIsUnary(prec, leaf, rest);
    UnaryIsCondition(prec, LeafBody(leaf) + (")" + rest), Atom(leaf), rest);
    assert (LeafText(leaf) + rest)[1..] == LeafBody(leaf) + (")" + rest);
    StripAppend(")", rest);
  }

  /** A text that the parser reads as one unit, whatever follows. */
  ghost predicate ReadsAs(prec: Precedence, text: string, tree: Cond) {
    forall rest :: ParseUnary(prec, text + rest) == Some((tree, rest))
  }

  lemma UnitReads(prec: Precedence, leaf: MatchLeaf, negate: bool)
    requires ValidLeaf(leaf) && LeafClosed(leaf)
    ensures ReadsAs(prec, UnitText(leaf, negate), UnitTree(leaf, negate))
  {
    forall rest
      ensures ParseUnary(prec, UnitText(leaf, negate) + rest) == Some((UnitTree(leaf, negate), rest))
    {
      LeafParses(prec, leaf, rest);
      if negate {
        assert UnitText(leaf, negate) + rest == "!" + (LeafText(leaf) + rest);
      }
    }
  }

  predicate EndsChain(rest: string) {
    rest == "" || rest[0] != ' '
  }

  lemma JoinStep(parts: seq<string>, sep: string, rest: string)
    requires |parts| > 1
    ensures Join(parts, sep) + rest == parts[0] + (sep + (Join(parts[1..], sep) + rest))
  {
    Assoc4(parts[0], sep, Join(parts[1..], sep), rest);
  }

  lemma {:induction false} TightChain(prec: Precedence, texts: seq<string>, trees: seq<Cond>, rest: string)
    requires |texts| == |trees| > 0 && EndsChain(rest)
    requires forall i | 0 <= i < |texts| :: ReadsAs(prec, texts[i], trees[i])
    ensures ParseTight(prec, Join(texts, Symbol(TightOf(prec))) + rest) == Some((Chain(TightOf(prec), trees), rest))
  {
    var sep := Symbol(TightOf(prec));
    assert ReadsAs(prec, texts[0], trees[0]);
    if |texts| == 1 {
      assert ParseUnary(prec, texts[0] + rest) == Some((trees[0], rest));
      assert !(sep <= rest);
    } else {
      var more := Join(texts[1..], sep) + rest;
      JoinStep(texts, sep, rest);
      assert ParseUnary(prec, texts[0] + (sep + more)) == Some((trees[0], sep + more));
      StripAppend(sep, more);
      TightChain(prec, texts[1..], trees[1..], rest);
    }
  }

  lemma {:induction false} LooseChain(prec: Precedence, texts: seq<string>, trees: seq<Cond>, rest: string)
    requires |texts| == |trees| > 0 && EndsChain(rest)
    requires forall i | 0 <= i < |texts| :: ReadsAs(prec, texts[i], trees[i])
    ensures ParseLoose(prec, Join(texts, Symbol(LooseOf(prec))) + rest) == Some((Chain(LooseOf(prec), trees), rest))
  {
    var sep := Symbol(LooseOf(prec));
    assert ReadsAs(prec, texts[0], trees[0]);
    if |texts| == 1 {
      assert ParseUnary(prec, texts[0] + rest) == Some((trees[0], rest));
      assert !(Symbol(TightOf(prec)) <= rest) && !(sep <= rest);
    } else {
      var more := Join(texts[1..], sep) + rest;
      JoinStep(texts, sep, rest);
      assert ParseUnary(prec, texts[0] + (sep + more)) == Some((trees[0], sep + more));
      assert sep + more != "" && (sep + more)[1] == sep[1] != Symbol(TightOf(prec))[1];
      assert ParseTight(prec, texts[0] + (sep + more)) == Some((trees[0], sep + more));
      StripAppend(sep, more);
      LooseChain(prec, texts[1..], trees[1..], rest);
    }
  }

  /** A chain under either connective is read back whichever binds tighter. */
  lemma ChainParses(prec: Precedence, op: Connective, texts: seq<string>, trees: seq<Cond>, rest: string)
    requires |texts| == |trees| > 0 && EndsChain(rest)
    requires forall i | 0 <= i < |texts| :: ReadsAs(prec, texts[i], trees[i])
    ensures ParseLoose(prec, Join(texts, Symbol(op)) + rest) == Some((Chain(op, trees), rest))
  {
    if op == TightOf(prec) {
      TightChain(prec, texts, trees, rest);
      assert !(Symbol(LooseOf(prec)) <= rest);
    } else {
      LooseChain(prec, texts, trees, rest);
    }
  }

  lemma BracketReads(prec: Precedence, inner: string, tree: Cond)
    requires forall rest :: ParseLoose(prec, inner + (")" + rest)) == Some((tree, ")" + rest))
    ensures ReadsAs(prec, "(" + (inner + ")"), tree)
  {
    forall rest
      ensures ParseUnary(prec, "(" + (inner + ")") + rest) == Some((tree, rest))
    {
      Assoc("(", inner + ")", rest);
      Assoc(inner, ")", rest);
      assert ("(" + (inner + ")") + rest)[1..] == inner + (")" + rest);
      StripAppend(")", rest);
    }
  }

  lemma GroupReads(prec: Precedence, op: Connective, leaves: seq<MatchLeaf>, negate: bool)
    requires leaves != []
    requires forall leaf | leaf in leaves :: ValidLeaf(leaf) && LeafClosed(leaf)
    ensures ReadsAs(prec, JoinedLeaves(leaves, Symbol(op), negate), Chain(op, UnitTrees(leaves, negate)))
  {
    var texts, trees := UnitTexts(leaves, negate), UnitTrees(leaves, negate);
    forall i | 0 <= i < |leaves|
      ensures ReadsAs(prec, texts[i], trees[i])
    {
      UnitReads(prec, leaves[i], negate);
    }
    if |leaves| > 1 {
      forall rest
        ensures ParseLoose(prec, Join(texts, Symbol(op)) + (")" + rest)) == Some((Chain(op, trees), ")" + rest))
      {
        ChainParses(prec, op, texts, trees, ")" + rest);
      }
      BracketReads(prec, Join(texts, Symbol(op)), Chain(op, trees));
    }
  }

  lemma TrueParses(prec: Precedence, rest: string)
    ensures ParseLoose(prec, "true" + (")" + rest)) == Some((Always, ")" + rest))
  {
    var s := "true" + (")" + rest);
    StripAppend("true", ")" + rest);
    assert s[0] == 't';
    assert ParseUnary(prec, s) == Some((Always, ")" + rest));
    UnaryIsCondition(prec, s, Always, rest);
  }

  lemma GroupsRead(prec: Precedence, m: PolicyMatch)
    requires ValidMatch(m) && MatchClosed(Some(m))
    ensures |Groups(m)| == |GroupTrees(m)|
    ensures forall i | 0 <= i < |Groups(m)| :: ReadsAs(prec, Groups(m)[i], GroupTrees(m)[i])
  {
    if m.all != [] { GroupReads(prec, Conj, m.all, false); }
    if m.any != [] { GroupReads(prec, Disj, m.any, false); }
    if m.none != [] { GroupReads(prec, Conj, m.none, true); }
  }

  /** Parsing the printed condition gives back the tree of the match. */
  lemma ConditionParses(prec: Precedence, m: Option<PolicyMatch>, rest: string)
    requires m.Some? ==> ValidMatch(m.value)
    requires MatchClosed(m)
    ensures ParseLoose(prec, ConditionText(m) + (")" + rest)) == Some((ConditionTree(m), ")" + rest))
  {
    if m.None? || Groups(m.value) == [] {
      TrueParses(prec, rest);
    } else {
      GroupsRead(prec, m.value);
      ChainParses(prec, Conj, Groups(m.value), GroupTrees(m.value), ")" + rest);
    }
  }

  /** Compiler correctness for one condition, exactly: the printed text is read back as the tree
      of the match if and only if every regular expression in the match is closed; and that tree
      means what the match means. */
  lemma ConditionRoundTrip(prec: Precedence, m: Option<PolicyMatch>, rest: string)
    requires m.Some? ==> ValidMatch(m.value)
    ensures ParseLoose(prec, ConditionText(m) + (")" + rest)) == Some((ConditionTree(m), ")" + rest)) <==>
            MatchClosed(m)
    ensures forall sat: MatchLeaf -> bool :: Eval(ConditionTree(m), sat) <==> MatchHolds(m, sat)
  {
    TreeClosed(m);
    if MatchClosed(m) {
      ConditionParses(prec, m, rest);
    }
    forall sat: MatchLeaf -> bool
      ensures Eval(ConditionTree(m), sat) <==> MatchHolds(m, sat)
    {
      TreeMeaning(m, sat);
    }
  }

  /** The validators alone do not suffice: a value they accept closes its delimiters early. */
  lemma UnescapedSlashIsMisread(prec: Precedence, rest: string)
    ensures var leaf := MatchLeaf("User-Name", "=~", "a/b");
            var m := Some(PolicyMatch([leaf], [], []));
            && ValidMatch(m.value)
            && ParseLoose(prec, ConditionText(m) + (")" + rest)) != Some((ConditionTree(m), ")" + rest))
  {
    var leaf := MatchLeaf("User-Name", "=~", "a/b");
    var m := Some(PolicyMatch([leaf], [], []));
    assert leaf.value[1] == '/' && BackslashRun(leaf.value, 1) == 0;
    assert leaf in m.value.all + m.value.any + m.value.none;
    ConditionRoundTrip(prec, m, rest);
  }
}
