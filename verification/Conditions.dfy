/** Policy conditions: the printer of internal/renderer/sites.go, a parser of the printed
    unlang text, and the meaning on both sides. */
module Conditions {
  import opened Wrappers
  import opened Specs
  import opened Text
  import opened Sanitize

  // ---------------------------------------------------------------- printer

  function LeafText(leaf: MatchLeaf): string {
    "(" + (LeafBody(leaf) + ")")
  }

  function LeafBody(leaf: MatchLeaf): string {
    leaf.attribute + (" " + (leaf.operator + (" " + ValueText(leaf))))
  }

  function ValueText(leaf: MatchLeaf): string {
    if IsRegexOperator(leaf.operator) then "/" + (leaf.value + "/") else leaf.value
  }

  function UnitText(leaf: MatchLeaf, negate: bool): string {
    if negate then "!" + LeafText(leaf) else LeafText(leaf)
  }

  function UnitTexts(leaves: seq<MatchLeaf>, negate: bool): (r: seq<string>)
    ensures |r| == |leaves|
  {
    seq(|leaves|, i requires 0 <= i < |leaves| => UnitText(leaves[i], negate))
  }

  function JoinedLeaves(leaves: seq<MatchLeaf>, sep: string, negate: bool): string {
    if |leaves| == 1 then UnitText(leaves[0], negate)
    else "(" + (Join(UnitTexts(leaves, negate), sep) + ")")
  }

  function Groups(m: PolicyMatch): seq<string> {
    (if m.all != [] then [JoinedLeaves(m.all, " && ", false)] else []) +
    (if m.any != [] then [JoinedLeaves(m.any, " || ", false)] else []) +
    (if m.none != [] then [JoinedLeaves(m.none, " && ", true)] else [])
  }

  function ConditionText(m: Option<PolicyMatch>): string {
    if m.None? || Groups(m.value) == [] then "true" else Join(Groups(m.value), " && ")
  }

  method JoinLeaves(leaves: seq<MatchLeaf>, sep: string, negate: bool) returns (r: string)
    ensures r == JoinedLeaves(leaves, sep, negate)
  {
    var wrapped := new string[|leaves|];
    for i := 0 to |leaves|
      invariant forall k | 0 <= k < i :: wrapped[k] == UnitText(leaves[k], negate)
    {
      var leaf := leaves[i];
      var val := leaf.value;
      if leaf.operator == "=~" || leaf.operator == "!~" {
        val := "/" + (val + "/");
      }
      var expr := "(" + ((leaf.attribute + (" " + (leaf.operator + (" " + val)))) + ")");
      if negate {
        expr := "!" + expr;
      }
      assert expr == UnitText(leaf, negate);
      wrapped[i] := expr;
    }
    assert wrapped[..] == UnitTexts(leaves, negate);
    if wrapped.Length == 1 {
      return wrapped[0];
    }
    return "(" + (Join(wrapped[..], sep) + ")");
  }

  method BuildCondition(m: Option<PolicyMatch>) returns (r: string)
    ensures r == ConditionText(m)
  {
    if m.None? {
      return "true";
    }
    var groups: seq<string> := [];
    if |m.value.all| > 0 {
      var g := JoinLeaves(m.value.all, " && ", false);
      groups := groups + [g];
    }
    if |m.value.any| > 0 {
      var g := JoinLeaves(m.value.any, " || ", false);
      groups := groups + [g];
    }
    if |m.value.none| > 0 {
      var g := JoinLeaves(m.value.none, " && ", true);
      groups := groups + [g];
    }
    assert groups == Groups(m.value);
    if |groups| == 0 {
      return "true";
    }
    if |groups| == 1 {
      return groups[0];
    }
    return Join(groups, " && ");
  }

  // ---------------------------------------------------------------- source meaning

  /** A policy match holds when every leaf of All, some leaf of Any (if there is one) and no
      leaf of None holds. */
  predicate MatchHolds(m: Option<PolicyMatch>, sat: MatchLeaf -> bool) {
    m.Some? ==>
      && (forall leaf | leaf in m.value.all :: sat(leaf))
      && (m.value.any == [] || exists leaf | leaf in m.value.any :: sat(leaf))
      && (forall leaf | leaf in m.value.none :: !sat(leaf))
  }

  // ---------------------------------------------------------------- parser

  datatype Cond = Always | Atom(leaf: MatchLeaf) | Not(c: Cond) | And(l: Cond, r: Cond) | Or(l: Cond, r: Cond)

  /** Which of the two connectives binds tighter. Nothing below depends on it. */
  datatype Precedence = AndTighter | OrTighter

  datatype Connective = Conj | Disj

  function Symbol(op: Connective): string {
    if op.Conj? then " && " else " || "
  }

  function TightOf(prec: Precedence): Connective {
    if prec.AndTighter? then Conj else Disj
  }

  function LooseOf(prec: Precedence): Connective {
    if prec.AndTighter? then Disj else Conj
  }

  function Combine(op: Connective, l: Cond, r: Cond): Cond {
    if op.Conj? then And(l, r) else Or(l, r)
  }

  predicate Eval(c: Cond, sat: MatchLeaf -> bool) {
    match c
    case Always => true
    case Atom(leaf) => sat(leaf)
    case Not(d) => !Eval(d, sat)
    case And(l, r) => Eval(l, sat) && Eval(r, sat)
    case Or(l, r) => Eval(l, sat) || Eval(r, sat)
  }

  /** Every regular expression in the tree is one that its delimiters bracket exactly. */
  predicate AtomsClosed(c: Cond) {
    match c
    case Always => true
    case Atom(leaf) => LeafClosed(leaf)
    case Not(d) => AtomsClosed(d)
    case And(l, r) => AtomsClosed(l) && AtomsClosed(r)
    case Or(l, r) => AtomsClosed(l) && AtomsClosed(r)
  }

  /** Reads a regular expression up to the first `/` that no backslash escapes; returns the
      expression and what follows the `/`. */
  function ScanRegex(s: string): (r: Option<(string, string)>)
    ensures r.Some? ==> s == r.value.0 + ("/" + r.value.1)
    ensures r.Some? ==> RegexClosed(r.value.0)
  {
    if s == "" then None
    else if s[0] == '/' then Some(("", s[1..]))
    else
      var n := if s[0] == '\\' then 2 else 1;
      if |s| < n then None
      else
        var tail := ScanRegex(s[n..]);
        if tail.None? then None
        else
          ClosedExtend(s[..n], tail.value.0);
          assert s == s[..n] + s[n..];
          Some((s[..n] + tail.value.0, tail.value.1))
  }

  /** `attribute operator value`, the value reaching to the closing `)` or regex `/`. */
  function ParseAtom(s: string): (r: Option<(MatchLeaf, string)>)
    ensures r.Some? ==> |r.value.1| < |s| && LeafClosed(r.value.0)
  {
    var attribute := TakeWhile(s, IsAttributeChar);
    var afterAttribute := Strip(DropWhile(s, IsAttributeChar), " ");
    if attribute == "" || afterAttribute.None? then None
    else
      var operator := TakeWhile(afterAttribute.value, NotBlank);
      var afterOperator := Strip(DropWhile(afterAttribute.value, NotBlank), " ");
      if !ValidOperator(operator) || afterOperator.None? then None
      else if IsRegexOperator(operator) then
        var body := Strip(afterOperator.value, "/");
        if body.None? then None
        else
          var scanned := ScanRegex(body.value);
          if scanned.None? then None
          else Some((MatchLeaf(attribute, operator, scanned.value.0), scanned.value.1))
      else
        var value := TakeWhile(afterOperator.value, NotClosing);
        Some((MatchLeaf(attribute, operator, value), DropWhile(afterOperator.value, NotClosing)))
  }

  function ParseUnary(prec: Precedence, s: string): (r: Option<(Cond, string)>)
    ensures r.Some? ==> |r.value.1| < |s| && AtomsClosed(r.value.0)
    decreases |s|, 0
  {
    if s == "" then None
    else if s[0] == '!' then
      var inner := ParseUnary(prec, s[1..]);
      if inner.None? then None else Some((Not(inner.value.0), inner.value.1))
    else if s[0] == '(' then
      var inner := ParseLoose(prec, s[1..]);
      if inner.None? then None
      else
        var closed := Strip(inner.value.1, ")");
        if closed.None? then None else Some((inner.value.0, closed.value))
    else
      var literal := Strip(s, "true");
      if literal.Some? && (literal.value == "" || literal.value[0] == ')') then Some((Always, literal.value))
      else
        var atom := ParseAtom(s);
        if atom.None? then None else Some((Atom(atom.value.0), atom.value.1))
  }

  /** A chain of units joined by the connective that binds tighter. */
  function ParseTight(prec: Precedence, s: string): (r: Option<(Cond, string)>)
    ensures r.Some? ==> |r.value.1| < |s| && AtomsClosed(r.value.0)
    decreases |s|, 1
  {
    var first := ParseUnary(prec, s);
    if first.None? then None
    else
      var more := Strip(first.value.1, Symbol(TightOf(prec)));
      if more.None? then first
      else
        var others := ParseTight(prec, more.value);
        if others.None? then None
        else Some((Combine(TightOf(prec), first.value.0, others.value.0), others.value.1))
  }

  /** A chain of tight chains joined by the connective that binds looser: a whole condition. */
  function ParseLoose(prec: Precedence, s: string): (r: Option<(Cond, string)>)
    ensures r.Some? ==> |r.value.1| < |s| && AtomsClosed(r.value.0)
    decreases |s|, 2
  {
    var first := ParseTight(prec, s);
    if first.None? then None
    else
      var more := Strip(first.value.1, Symbol(LooseOf(prec)));
      if more.None? then first
      else
        var others := ParseLoose(prec, more.value);
        if others.None? then None
        else Some((Combine(LooseOf(prec), first.value.0, others.value.0), others.value.1))
  }
}
