/** The fragment of the FreeRADIUS configuration language that the operator emits: its syntax
    tree and a parser for its text. */
module Unlang {
  import opened Wrappers
  import opened Text
  import opened Sanitize
  import opened Conditions

  datatype GroupKind = Redundant | LoadBalance

  datatype Stmt =
    | SetReply(attribute: string, value: string)
    | CallModule(name: string)
    | Reject
    | Accept
    | Group(kind: GroupKind, modules: seq<string>)

  datatype Item = If(cond: Cond, body: seq<Stmt>) | Plain(stmt: Stmt)

  datatype Section = Section(name: string, items: seq<Item>)

  datatype Server = Server(name: string, sections: seq<Section>)

  /** The words of the policy language, keywords and return codes: no bare module call can be spelled so. */
  const RESERVED: seq<string> := [
    "reject", "ok", "if", "update", "redundant", "load-balance",
    "elsif", "else", "switch", "case", "foreach", "break", "return", "group", "map", "parallel",
    "redundant-load-balance",
    "call", "caller", "try", "catch", "detach", "limit", "subrequest", "timeout", "transaction", "policy", "actions",
    "fail", "handled", "invalid", "userlock", "disallow", "notfound", "noop", "updated"]

  predicate StmtClean(s: Stmt) {
    match s
    case CallModule(name) => name !in RESERVED
    case Group(_, modules) => forall m | m in modules :: m !in RESERVED
    case _ => true
  }

  predicate ItemClean(item: Item) {
    match item
    case If(cond, body) => AtomsClosed(cond) && forall s | s in body :: StmtClean(s)
    case Plain(s) => StmtClean(s)
  }

  predicate SectionClean(section: Section) {
    forall item | item in section.items :: ItemClean(item)
  }

  predicate ServerClean(server: Server) {
    forall section | section in server.sections :: SectionClean(section)
  }

  // ---------------------------------------------------------------- blanks and comments

  predicate IsBlank(c: char) { c == ' ' || c == '\n' }

  predicate NotNewline(c: char) { c != '\n' }

  predicate NotQuote(c: char) { c != '"' }

  function AfterLine(s: string): (r: string)
    ensures s != "" ==> |r| < |s|
  {
    var r := DropWhile(s, NotNewline);
    if r == "" then r else r[1..]
  }

  /** Drops blanks and comment lines. */
  function Skip(s: string): (r: string)
    ensures |r| <= |s|
    decreases |s|
  {
    if s != "" && IsBlank(s[0]) then Skip(s[1..])
    else if s != "" && s[0] == '#' then Skip(AfterLine(s))
    else s
  }

  lemma {:induction false} SkipBlanks(blanks: string, rest: string)
    requires forall c | c in blanks :: IsBlank(c)
    ensures Skip(blanks + rest) == Skip(rest)
  {
    if blanks == "" {
      assert blanks + rest == rest;
    } else {
      assert (blanks + rest)[1..] == blanks[1..] + rest;
      SkipBlanks(blanks[1..], rest);
    }
  }

  lemma SkipComment(line: string, rest: string)
    requires line != "" && line[0] == '#' && '\n' !in line
    ensures Skip(line + ("\n" + rest)) == Skip(rest)
  {
    TakeWhileStops(line, "\n" + rest, NotNewline);
    assert AfterLine(line + ("\n" + rest)) == rest;
  }

  // ---------------------------------------------------------------- parser

  function ParseWords(s: string): (r: Option<(seq<string>, string)>)
    ensures r.Some? ==> |r.value.1| < |s| && forall m | m in r.value.0 :: m !in RESERVED
    decreases |s|
  {
    var t := Skip(s);
    var end := Strip(t, "}\n");
    if end.Some? then Some(([], end.value))
    else
      var word := TakeWhile(t, IsIdentifierChar);
      var next := Strip(DropWhile(t, IsIdentifierChar), "\n");
      if word == "" || word in RESERVED || next.None? then None
      else
        var others := ParseWords(next.value);
        if others.None? then None else Some(([word] + others.value.0, others.value.1))
  }

  function ParseUpdate(s: string): (r: Option<(Stmt, string)>)
    ensures r.Some? ==> |r.value.1| < |s| && StmtClean(r.value.0)
  {
    var t := Skip(s);
    var attribute := TakeWhile(t, IsAttributeChar);
    var quoted := Strip(DropWhile(t, IsAttributeChar), " := \"");
    if attribute == "" || quoted.None? then None
    else
      var value := TakeWhile(quoted.value, NotQuote);
      var next := Strip(DropWhile(quoted.value, NotQuote), "\"\n");
      if next.None? then None
      else
        var end := Strip(Skip(next.value), "}\n");
        if end.None? then None else Some((SetReply(attribute, value), end.value))
  }

  function ParseWordStmt(s: string): (r: Option<(Stmt, string)>)
    ensures r.Some? ==> |r.value.1| < |s| && StmtClean(r.value.0)
  {
    var word := TakeWhile(s, IsIdentifierChar);
    var next := Strip(DropWhile(s, IsIdentifierChar), "\n");
    if word == "" || next.None? then None
    else if word == "reject" then Some((Reject, next.value))
    else if word == "ok" then Some((Accept, next.value))
    else if word in RESERVED then None
    else Some((CallModule(word), next.value))
  }

  function ParseStmt(s: string): (r: Option<(Stmt, string)>)
    ensures r.Some? ==> |r.value.1| < |s| && StmtClean(r.value.0)
  {
    var update := Strip(s, "update reply {\n");
    var redundant := Strip(s, "redundant {\n");
    var balance := Strip(s, "load-balance {\n");
    if update.Some? then ParseUpdate(update.value)
    else if redundant.Some? then
      var words := ParseWords(redundant.value);
      if words.None? then None else Some((Group(Redundant, words.value.0), words.value.1))
    else if balance.Some? then
      var words := ParseWords(balance.value);
      if words.None? then None else Some((Group(LoadBalance, words.value.0), words.value.1))
    else ParseWordStmt(s)
  }

  function ParseStmts(s: string): (r: Option<(seq<Stmt>, string)>)
    ensures r.Some? ==> |r.value.1| < |s| && forall x | x in r.value.0 :: StmtClean(x)
    decreases |s|
  {
    var t := Skip(s);
    var end := Strip(t, "}\n");
    if end.Some? then Some(([], end.value))
    else
      var first := ParseStmt(t);
      if first.None? then None
      else
        var others := ParseStmts(first.value.1);
        if others.None? then None else Some(([first.value.0] + others.value.0, others.value.1))
  }

  function ParseIf(prec: Precedence, s: string): (r: Option<(Item, string)>)
    ensures r.Some? ==> |r.value.1| < |s| && ItemClean(r.value.0)
  {
    var cond := ParseLoose(prec, s);
    if cond.None? then None
    else
      var open := Strip(cond.value.1, ") {\n");
      if open.None? then None
      else
        var body := ParseStmts(open.value);
        if body.None? then None else Some((If(cond.value.0, body.value.0), body.value.1))
  }

  function ParseItem(prec: Precedence, s: string): (r: Option<(Item, string)>)
    ensures r.Some? ==> |r.value.1| < |s| && ItemClean(r.value.0)
  {
    var guarded := Strip(s, "if (");
    if guarded.Some? then ParseIf(prec, guarded.value)
    else
      var stmt := ParseStmt(s);
      if stmt.None? then None else Some((Plain(stmt.value.0), stmt.value.1))
  }

  function ParseItems(prec: Precedence, s: string): (r: Option<(seq<Item>, string)>)
    ensures r.Some? ==> |r.value.1| < |s| && forall item | item in r.value.0 :: ItemClean(item)
    decreases |s|
  {
    var t := Skip(s);
    var end := Strip(t, "}\n");
    if end.Some? then Some(([], end.value))
    else
      var first := ParseItem(prec, t);
      if first.None? then None
      else
        var others := ParseItems(prec, first.value.1);
        if others.None? then None else Some(([first.value.0] + others.value.0, others.value.1))
  }

  /** `name {` and what follows the line. */
  function ParseOpening(s: string): (r: Option<(string, string)>)
    ensures r.Some? ==> |r.value.1| < |s|
  {
    var name := TakeWhile(s, IsIdentifierChar);
    var body := Strip(DropWhile(s, IsIdentifierChar), " {\n");
    if name == "" || body.None? then None else Some((name, body.value))
  }

  function ParseSections(prec: Precedence, s: string): (r: Option<(seq<Section>, string)>)
    ensures r.Some? ==> |r.value.1| < |s| && forall section | section in r.value.0 :: SectionClean(section)
    decreases |s|
  {
    var t := Skip(s);
    var end := Strip(t, "}\n");
    if end.Some? then Some(([], end.value))
    else
      var open := ParseOpening(t);
      if open.None? then None
      else
        var items := ParseItems(prec, open.value.1);
        if items.None? then None
        else
          var others := ParseSections(prec, items.value.1);
          if others.None? then None
          else Some(([Section(open.value.0, items.value.0)] + others.value.0, others.value.1))
  }

  /** A whole file: a list of `server name { sections }`. */
  function ParseServers(prec: Precedence, s: string): (r: Option<seq<Server>>)
    ensures r.Some? ==> forall server | server in r.value :: ServerClean(server)
    decreases |s|
  {
    var t := Skip(s);
    if t == "" then Some([])
    else
      var keyword := Strip(t, "server ");
      if keyword.None? then None
      else
        var open := ParseOpening(keyword.value);
        if open.None? then None
        else
          var sections := ParseSections(prec, open.value.1);
          if sections.None? then None
          else
            var others := ParseServers(prec, sections.value.1);
            if others.None? then None
            else Some([Server(open.value.0, sections.value.0)] + others.value)
  }
}
