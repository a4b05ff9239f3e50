/** Compiler correctness of sites-enabled/default: parsing the printed file yields the compiled
    policies, and running them is running the source policies in ascending priority. */
module SiteMeaning {
  import opened Wrappers
  import opened Text
  import opened Specs
  import opened Sanitize
  import opened Conditions
  import opened ConditionMeaning
  import opened Unlang
  import opened Sites

  // ---------------------------------------------------------------- the compiled file

  /** The statement of an action; an action of unknown kind prints nothing. */
  function ActionStmt(a: PolicyAction): seq<Stmt> {
    if a.kind == "set" then [SetReply(a.attribute, a.value)]
    else if a.kind == "call" then [CallModule(a.moduleName)]
    else if a.kind == "reject" then [Reject]
    else if a.kind == "accept" then [Accept]
    else if a.kind == "redundant" then [Group(Redundant, a.modules)]
    else if a.kind == "load-balance" then [Group(LoadBalance, a.modules)]
    else []
  }

  function ActionStmts(actions: seq<PolicyAction>): seq<Stmt> {
    if actions == [] then [] else ActionStmt(actions[0]) + ActionStmts(actions[1..])
  }

  function PolicyItem(p: PolicySpec): Item {
    If(ConditionTree(p.match_), ActionStmts(p.actions))
  }

  /** What each raw text is read as. */
  type Reading = string -> seq<Item>

  /** A policy with raw text stands for what the text is read as, whatever its other fields say. */
  function ItemsOf(raw: Reading, p: PolicySpec): seq<Item> {
    if p.rawConfig != "" then raw(p.rawConfig) else [PolicyItem(p)]
  }

  function PolicyItems(raw: Reading, ps: seq<PolicySpec>): seq<Item> {
    if ps == [] then [] else ItemsOf(raw, ps[0]) + PolicyItems(raw, ps[1..])
  }

  function StageSections(raw: Reading, arr: Arrangement, stages: seq<string>): seq<Section> {
    if stages == [] then []
    else [Section(stages[0], PolicyItems(raw, AtStage(arr, stages[0])))] + StageSections(raw, arr, stages[1..])
  }

  function CoAServer(): Server {
    Server("coa", [Section("recv-coa", [Plain(Accept)]), Section("send-coa", [Plain(Accept)])])
  }

  function Compiled(raw: Reading, arr: Arrangement, coa: bool): seq<Server> {
    [Server("default", StageSections(raw, arr, STAGES))] + if coa then [CoAServer()] else []
  }

  // ---------------------------------------------------------------- when a policy is readable

  /** No module is spelled like a word of the language. */
  predicate ActionClear(a: PolicyAction) {
    && (a.kind == "call" ==> a.moduleName !in RESERVED)
    && (a.kind == "redundant" || a.kind == "load-balance" ==> forall m | m in a.modules :: m !in RESERVED)
  }

  predicate PolicyClear(p: PolicySpec) {
    p.rawConfig == "" ==> MatchClosed(p.match_) && forall a | a in p.actions :: ActionClear(a)
  }

  /** What the API server (object names) and Render's validation grant every templated policy. */
  predicate Templated(p: PolicySpec) {
    p.rawConfig == "" && ValidPolicy(p) && '\n' !in p.name
  }

  function Before(items: seq<Item>, others: Option<(seq<Item>, string)>): Option<(seq<Item>, string)> {
    if others.None? then None else Some((items + others.value.0, others.value.1))
  }

  /** On a line of its own, whatever follows, the text is read as these items: it is in the parsed
      fragment of the language, and opens nothing that it does not close. */
  ghost predicate Reads(prec: Precedence, text: string, items: seq<Item>) {
    forall rest :: ParseItems(prec, text + ("\n" + rest)) == Before(items, ParseItems(prec, rest))
  }

  /** A raw policy whose text is read as the reading says, or a templated one. */
  ghost predicate Printable(prec: Precedence, raw: Reading, p: PolicySpec) {
    if p.rawConfig != "" then Reads(prec, p.rawConfig, raw(p.rawConfig)) else Templated(p)
  }

  ghost predicate StagesPrintable(prec: Precedence, raw: Reading, arr: Arrangement, stages: seq<string>) {
    forall stage, p | stage in stages && p in AtStage(arr, stage) :: Printable(prec, raw, p)
  }

  predicate StagesClear(arr: Arrangement, stages: seq<string>) {
    forall stage, p | stage in stages && p in AtStage(arr, stage) :: PolicyClear(p)
  }

  // ---------------------------------------------------------------- statements

  predicate AllBlank(s: string) {
    forall c | c in s :: IsBlank(c)
  }

  lemma IndentsBlank()
    ensures AllBlank(FOUR) && AllBlank(EIGHT) && AllBlank(INDENT) && AllBlank("\n")
  {
  }

  /** What follows a blank is reached by Skip when it starts with neither a blank nor a comment. */
  predicate Starts(s: string) {
    s != "" && !IsBlank(s[0]) && s[0] != '#'
  }

  lemma SkipTo(blanks: string, rest: string)
    requires AllBlank(blanks) && Starts(rest)
    ensures Skip(blanks + rest) == rest
  {
    SkipBlanks(blanks, rest);
    assert Skip(rest) == rest;
  }

  lemma WordLine(word: string, rest: string)
    requires ValidIdentifier(word)
    ensures TakeWhile(word + ("\n" + rest), IsIdentifierChar) == word
    ensures Strip(DropWhile(word + ("\n" + rest), IsIdentifierChar), "\n") == Some(rest)
    ensures Starts(word + ("\n" + rest)) && !("}\n" <= word + ("\n" + rest))
  {
    TakeWhileStops(word, "\n" + rest, IsIdentifierChar);
    StripAppend("\n", rest);
    assert (word + ("\n" + rest))[0] == word[0];
  }

  lemma ClosingLine(blanks: string, rest: string)
    requires AllBlank(blanks)
    ensures Skip(blanks + ("}\n" + rest)) == "}\n" + rest
    ensures Strip("}\n" + rest, "}\n") == Some(rest)
  {
    SkipTo(blanks, "}\n" + rest);
    StripAppend("}\n", rest);
  }

  lemma {:induction false} WordsParse(modules: seq<string>, rest: string)
    requires forall m | m in modules :: ValidIdentifier(m) && m !in RESERVED
    ensures ParseWords(ModuleLines(modules, INDENT) + (INDENT + ("}\n" + rest))) == Some((modules, rest))
  {
    var tail := INDENT + ("}\n" + rest);
    IndentsBlank();
    if modules == [] {
      ClosingLine(INDENT, rest);
      assert ModuleLines(modules, INDENT) + tail == tail;
    } else {
      var more := ModuleLines(modules[1..], INDENT) + tail;
      Assoc(INDENT + (FOUR + (modules[0] + "\n")), ModuleLines(modules[1..], INDENT), tail);
      Push4(INDENT, FOUR, modules[0], "\n", more);
      assert modules[0] in modules;
      WordLine(modules[0], more);
      SkipBlanks(INDENT, FOUR + (modules[0] + ("\n" + more)));
      SkipTo(FOUR, modules[0] + ("\n" + more));
      WordsParse(modules[1..], rest);
      assert modules == [modules[0]] + modules[1..];
    }
  }

  lemma GroupPeels(keyword: string, modules: seq<string>, rest: string)
    ensures GroupText(keyword, modules, INDENT) + rest ==
            INDENT + (keyword + (" {\n" + (ModuleLines(modules, INDENT) + (INDENT + ("}\n" + rest)))))
  {
    Push6(INDENT, keyword, " {\n", ModuleLines(modules, INDENT), INDENT, "}\n", rest);
  }

  lemma GroupParses(redundant: bool, modules: seq<string>, rest: string)
    requires forall m | m in modules :: ValidIdentifier(m) && m !in RESERVED
    ensures var keyword := if redundant then "redundant" else "load-balance";
            var s := Skip(GroupText(keyword, modules, INDENT) + rest);
            && !("}\n" <= s)
            && ParseStmt(s) == Some((Group(if redundant then Redundant else LoadBalance, modules), rest))
  {
    var keyword := if redundant then "redundant" else "load-balance";
    var body := ModuleLines(modules, INDENT) + (INDENT + ("}\n" + rest));
    GroupPeels(keyword, modules, rest);
    IndentsBlank();
    SkipTo(INDENT, keyword + (" {\n" + body));
    Assoc(keyword, " {\n", body);
    WordsParse(modules, rest);
    if redundant {
      assert keyword + " {\n" == "redundant {\n";
      StripAppend("redundant {\n", body);
    } else {
      assert keyword + " {\n" == "load-balance {\n";
      StripAppend("load-balance {\n", body);
    }
  }

  lemma SetPeels(attribute: string, value: string, rest: string)
    ensures SetText(attribute, value, INDENT) + rest ==
            INDENT + ("update reply {\n" +
              (INDENT + (FOUR + (attribute + (" := \"" + (value + ("\"\n" + (INDENT + ("}\n" + rest)))))))))
  {
    Push6(attribute, " := \"", value, "\"\n", INDENT, "}\n", rest);
    var line := attribute + (" := \"" + (value + ("\"\n" + (INDENT + "}\n"))));
    Push5(INDENT, "update reply {\n", INDENT, FOUR, line, rest);
  }

  lemma UpdateParses(attribute: string, value: string, rest: string)
    requires ValidAttribute(attribute) && ValidValue(value)
    ensures ParseUpdate(INDENT + (FOUR + (attribute + (" := \"" + (value + ("\"\n" + (INDENT + ("}\n" + rest))))))))
            == Some((SetReply(attribute, value), rest))
  {
    hide Skip, TakeWhile, DropWhile, Strip;
    var end := INDENT + ("}\n" + rest);
    var quoted := value + ("\"\n" + end);
    var line := attribute + (" := \"" + quoted);
    IndentsBlank();
    assert line[0] == attribute[0];
    SkipBlanks(INDENT, FOUR + line);
    SkipTo(FOUR, line);
    TakeWhileStops(attribute, " := \"" + quoted, IsAttributeChar);
    StripAppend(" := \"", quoted);
    TakeWhileStops(value, "\"\n" + end, NotQuote);
    StripAppend("\"\n", end);
    ClosingLine(INDENT, rest);
  }

  lemma SetParses(attribute: string, value: string, rest: string)
    requires ValidAttribute(attribute) && ValidValue(value)
    ensures var s := Skip(SetText(attribute, value, INDENT) + rest);
            !("}\n" <= s) && ParseStmt(s) == Some((SetReply(attribute, value), rest))
  {
    var body := INDENT + (FOUR + (attribute + (" := \"" + (value + ("\"\n" + (INDENT + ("}\n" + rest)))))));
    SetPeels(attribute, value, rest);
    IndentsBlank();
    SkipTo(INDENT, "update reply {\n" + body);
    StripAppend("update reply {\n", body);
    UpdateParses(attribute, value, rest);
  }

  /** A bare word on its own line is never the opening of a block. */
  lemma WordIsNotBlock(word: string, rest: string)
    requires ValidIdentifier(word)
    ensures Strip(word + ("\n" + rest), "update reply {\n").None?
    ensures Strip(word + ("\n" + rest), "redundant {\n").None?
    ensures Strip(word + ("\n" + rest), "load-balance {\n").None?
    ensures Strip(word + ("\n" + rest), "if (").None?
  {
    NoLineInPrefix(word, rest, "update reply {\n", 6);
    NoLineInPrefix(word, rest, "redundant {\n", 9);
    NoLineInPrefix(word, rest, "load-balance {\n", 12);
    NoLineInPrefix(word, rest, "if (", 2);
  }

  lemma NoLineInPrefix(word: string, rest: string, block: string, blank: nat)
    requires forall c | c in word :: IsIdentifierChar(c)
    requires blank < |block| && block[blank] == ' ' && forall i | 0 <= i < blank :: block[i] != '\n'
    ensures !(block <= word + ("\n" + rest))
  {
    var s := word + ("\n" + rest);
    if blank < |word| {
      assert s[blank] == word[blank];
      assert word[blank] in word;
    } else {
      assert s[|word|] == '\n';
    }
  }

  function WordStmt(word: string): Option<Stmt> {
    if word == "reject" then Some(Reject)
    else if word == "ok" then Some(Accept)
    else if word in RESERVED then None
    else Some(CallModule(word))
  }

  lemma WordParses(word: string, rest: string)
    requires ValidIdentifier(word)
    ensures var s := Skip(INDENT + (word + "\n") + rest);
            !("}\n" <= s) && ParseStmt(s) == if WordStmt(word).None? then None else Some((WordStmt(word).value, rest))
  {
    Push3(INDENT, word, "\n", rest);
    WordLine(word, rest);
    IndentsBlank();
    SkipTo(INDENT, word + ("\n" + rest));
    WordIsNotBlock(word, rest);
  }

  /** One action, exactly: its text is read back as the action if and only if no module it names
      is spelled like a word of the language. */
  lemma ActionRoundTrip(a: PolicyAction, rest: string)
    requires a.kind in ACTION_KINDS && ValidAction(a)
    ensures |ActionStmt(a)| == 1
    ensures ParseStmt(Skip(ActionText(a, INDENT) + rest)) == Some((ActionStmt(a)[0], rest)) <==> ActionClear(a)
    ensures ActionClear(a) ==> !("}\n" <= Skip(ActionText(a, INDENT) + rest))
  {
    hide Skip, SetText, GroupText, ValidAttribute, ValidValue;
    if a.kind == "set" { SetParses(a.attribute, a.value, rest); }
    else if a.kind == "call" { WordParses(a.moduleName, rest); }
    else if a.kind == "reject" { WordParses("reject", rest); }
    else if a.kind == "accept" { WordParses("ok", rest); }
    else if ActionClear(a) { GroupParses(a.kind == "redundant", a.modules, rest); }
  }

  /** A module called `ok` prints what the accept action prints. */
  lemma ModuleNamedOk(indent: string)
    ensures ActionText(PolicyAction("call", "ok", [], "", ""), indent) ==
            ActionText(PolicyAction("accept", "", [], "", ""), indent)
    ensures ActionText(PolicyAction("call", "reject", [], "", ""), indent) ==
            ActionText(PolicyAction("reject", "", [], "", ""), indent)
  {
  }

  lemma ActionStep(a: PolicyAction, more: string, stmts: seq<Stmt>, rest: string)
    requires ValidAction(a) && ActionClear(a)
    requires ParseStmts(more) == Some((stmts, rest))
    ensures ParseStmts(ActionText(a, INDENT) + more) == Some((ActionStmt(a) + stmts, rest))
  {
    if a.kind in ACTION_KINDS {
      ActionRoundTrip(a, more);
      assert ActionStmt(a) == [ActionStmt(a)[0]];
    } else {
      assert ActionText(a, INDENT) + more == more && ActionStmt(a) + stmts == stmts;
    }
  }

  lemma {:induction false} ActionsParse(actions: seq<PolicyAction>, rest: string)
    requires forall a | a in actions :: ValidAction(a) && ActionClear(a)
    ensures ParseStmts(ActionsText(actions) + (EIGHT + ("}\n" + rest))) == Some((ActionStmts(actions), rest))
  {
    var tail := EIGHT + ("}\n" + rest);
    if actions == [] {
      IndentsBlank();
      ClosingLine(EIGHT, rest);
      assert ActionsText(actions) + tail == tail;
    } else {
      Assoc(ActionText(actions[0], INDENT), ActionsText(actions[1..]), tail);
      assert actions[0] in actions;
      ActionsParse(actions[1..], rest);
      ActionStep(actions[0], ActionsText(actions[1..]) + tail, ActionStmts(actions[1..]), rest);
    }
  }

  // ---------------------------------------------------------------- policies

  lemma PolicyPeels(p: PolicySpec, rest: string)
    requires p.rawConfig == ""
    ensures PolicyText(p) + rest == EIGHT + (CommentText(p) + ("\n" + (GuardedText(p) + rest)))
  {
    Push4(EIGHT, CommentText(p), "\n", GuardedText(p), rest);
  }

  function GuardThen(p: PolicySpec, rest: string): string {
    ConditionText(p.match_) + (") {\n" + (ActionsText(p.actions) + (EIGHT + ("}\n" + rest))))
  }

  lemma GuardPeels(p: PolicySpec, rest: string)
    ensures GuardedText(p) + rest == EIGHT + ("if (" + GuardThen(p, rest))
  {
    Push5(ConditionText(p.match_), ") {\n", ActionsText(p.actions), EIGHT, "}\n", rest);
    Push3(EIGHT, "if (", ConditionText(p.match_) + (") {\n" + (ActionsText(p.actions) + (EIGHT + "}\n"))), rest);
  }

  lemma CommentHasNoNewline(p: PolicySpec)
    requires '\n' !in p.name
    ensures CommentText(p)[0] == '#' && '\n' !in CommentText(p)
  {
    var tail := ": " + p.name;
    assert '\n' !in tail;
    assert '\n' !in Decimal(p.priority);
    assert '\n' !in "# priority ";
  }

  lemma CommentSkipped(p: PolicySpec, rest: string)
    requires p.rawConfig == "" && '\n' !in p.name
    ensures Skip(PolicyText(p) + rest) == Skip(GuardedText(p) + rest)
  {
    PolicyPeels(p, rest);
    IndentsBlank();
    SkipBlanks(EIGHT, CommentText(p) + ("\n" + (GuardedText(p) + rest)));
    CommentHasNoNewline(p);
    SkipComment(CommentText(p), GuardedText(p) + rest);
  }

  lemma IfParses(prec: Precedence, p: PolicySpec, rest: string)
    requires Templated(p) && PolicyClear(p)
    ensures ParseIf(prec, GuardThen(p, rest)) == Some((PolicyItem(p), rest))
  {
    hide ActionsText, ParseStmts, ParseLoose, ConditionText;
    var body := ActionsText(p.actions) + (EIGHT + ("}\n" + rest));
    assert ") {\n" + body == ")" + (" {\n" + body);
    ConditionRoundTrip(prec, p.match_, " {\n" + body);
    StripAppend(") {\n", body);
    ActionsParse(p.actions, rest);
  }

  lemma PolicyParses(prec: Precedence, p: PolicySpec, rest: string)
    requires Templated(p) && PolicyClear(p)
    ensures var s := Skip(PolicyText(p) + rest);
            !("}\n" <= s) && ParseItem(prec, s) == Some((PolicyItem(p), rest))
  {
    CommentSkipped(p, rest);
    GuardPeels(p, rest);
    IndentsBlank();
    var s := "if (" + GuardThen(p, rest);
    assert s[0] == 'i';
    SkipTo(EIGHT, s);
    StripAppend("if (", GuardThen(p, rest));
    IfParses(prec, p, rest);
  }

  lemma BlankBeforeItems(prec: Precedence, blanks: string, s: string)
    requires AllBlank(blanks)
    ensures ParseItems(prec, blanks + s) == ParseItems(prec, s)
  {
    SkipBlanks(blanks, s);
  }

  lemma PolicyStep(prec: Precedence, raw: Reading, p: PolicySpec, more: string)
    requires Printable(prec, raw, p) && PolicyClear(p)
    ensures ParseItems(prec, PolicyText(p) + more) == Before(ItemsOf(raw, p), ParseItems(prec, more))
  {
    if p.rawConfig != "" {
      Push3(EIGHT, p.rawConfig, "\n", more);
      IndentsBlank();
      BlankBeforeItems(prec, EIGHT, p.rawConfig + ("\n" + more));
    } else {
      PolicyParses(prec, p, more);
    }
  }

  lemma {:induction false} PoliciesParse(prec: Precedence, raw: Reading, ps: seq<PolicySpec>, rest: string)
    requires forall p | p in ps :: Printable(prec, raw, p) && PolicyClear(p)
    ensures ParseItems(prec, PoliciesText(ps) + (FOUR + ("}\n" + rest))) == Some((PolicyItems(raw, ps), rest))
  {
    var tail := FOUR + ("}\n" + rest);
    if ps == [] {
      IndentsBlank();
      ClosingLine(FOUR, rest);
      assert PoliciesText(ps) + tail == tail;
    } else {
      Assoc(PolicyText(ps[0]), PoliciesText(ps[1..]), tail);
      PolicyStep(prec, raw, ps[0], PoliciesText(ps[1..]) + tail);
      PoliciesParse(prec, raw, ps[1..], rest);
    }
  }

  // ---------------------------------------------------------------- sections and servers

  lemma OpeningParses(name: string, rest: string)
    requires name != "" && forall c | c in name :: IsIdentifierChar(c)
    ensures ParseOpening(name + (" {\n" + rest)) == Some((name, rest))
  {
    TakeWhileStops(name, " {\n" + rest, IsIdentifierChar);
    StripAppend(" {\n", rest);
  }

  lemma SectionPeels(name: string, body: string, rest: string)
    ensures SectionText(name, body) + rest == FOUR + (name + (" {\n" + (body + (FOUR + ("}\n" + rest)))))
  {
    Push6(FOUR, name, " {\n", body, FOUR, "}\n", rest);
  }

  predicate IsName(name: string) {
    name != "" && forall c | c in name :: IsIdentifierChar(c)
  }

  lemma SectionParses(prec: Precedence, name: string, body: string, items: seq<Item>, rest: string)
    requires IsName(name)
    requires ParseItems(prec, body + (FOUR + ("}\n" + rest))) == Some((items, rest))
    ensures var others := ParseSections(prec, rest);
            ParseSections(prec, SectionText(name, body) + rest) ==
            if others.None? then None else Some(([Section(name, items)] + others.value.0, others.value.1))
  {
    var line := name + (" {\n" + (body + (FOUR + ("}\n" + rest))));
    SectionPeels(name, body, rest);
    assert name[0] in name && line[0] == name[0];
    IndentsBlank();
    SkipTo(FOUR, line);
    OpeningParses(name, body + (FOUR + ("}\n" + rest)));
  }

  lemma StageIsName(stage: string)
    requires stage in STAGES
    ensures IsName(stage)
  {
    var i :| 0 <= i < |STAGES| && STAGES[i] == stage;
    assert forall k | 0 <= k < |STAGES[i]| :: IsIdentifierChar(STAGES[i][k]);
  }

  lemma {:induction false} StagesParse(prec: Precedence, raw: Reading, arr: Arrangement, stages: seq<string>,
      rest: string)
    requires forall stage | stage in stages :: IsName(stage)
    requires StagesPrintable(prec, raw, arr, stages) && StagesClear(arr, stages)
    ensures ParseSections(prec, StagesText(arr, stages) + ("}\n" + rest)) ==
            Some((StageSections(raw, arr, stages), rest))
  {
    var tail := "}\n" + rest;
    if stages == [] {
      assert Skip(tail) == tail;
      StripAppend("}\n", rest);
      assert StagesText(arr, stages) + tail == tail;
    } else {
      var ps := AtStage(arr, stages[0]);
      var more := StagesText(arr, stages[1..]) + tail;
      assert stages[0] in stages;
      Assoc(SectionText(stages[0], PoliciesText(ps)), StagesText(arr, stages[1..]), tail);
      PoliciesParse(prec, raw, ps, more);
      SectionParses(prec, stages[0], PoliciesText(ps), PolicyItems(raw, ps), more);
      StagesParse(prec, raw, arr, stages[1..], rest);
    }
  }

  lemma OkParses(prec: Precedence, rest: string)
    ensures ParseItems(prec, OkText() + (FOUR + ("}\n" + rest))) == Some(([Plain(Accept)], rest))
  {
    var tail := FOUR + ("}\n" + rest);
    var s := "ok" + ("\n" + tail);
    Push3(EIGHT, "ok", "\n", tail);
    IndentsBlank();
    WordLine("ok", tail);
    SkipTo(EIGHT, s);
    WordIsNotBlock("ok", tail);
    assert ParseItem(prec, s) == Some((Plain(Accept), tail));
    ClosingLine(FOUR, rest);
    assert ParseItems(prec, tail) == Some(([], rest));
    assert [Plain(Accept)] + [] == [Plain(Accept)];
  }

  lemma ServerParses(prec: Precedence, name: string, body: string, sections: seq<Section>,
                     rest: string, others: seq<Server>)
    requires IsName(name)
    requires ParseSections(prec, body) == Some((sections, rest))
    requires ParseServers(prec, rest) == Some(others)
    ensures ParseServers(prec, ServerText(name, body)) == Some([Server(name, sections)] + others)
  {
    var s := ServerText(name, body);
    assert s[0] == 's';
    assert Skip(s) == s;
    StripAppend("server ", name + (" {\n" + body));
    OpeningParses(name, body);
  }

  lemma EndParses(prec: Precedence, rest: string)
    ensures ParseSections(prec, "}\n" + rest) == Some(([], rest))
  {
    var s := "}\n" + rest;
    assert s[0] == '}';
    StripAppend("}\n", rest);
  }

  lemma OkSectionParses(prec: Precedence, name: string, rest: string, others: seq<Section>, end: string)
    requires IsName(name)
    requires ParseSections(prec, rest) == Some((others, end))
    ensures ParseSections(prec, SectionText(name, OkText()) + rest) ==
            Some(([Section(name, [Plain(Accept)])] + others, end))
  {
    OkParses(prec, rest);
    SectionParses(prec, name, OkText(), [Plain(Accept)], rest);
  }

  lemma BlankBeforeSections(prec: Precedence, s: string)
    ensures ParseSections(prec, "\n" + s) == ParseSections(prec, s)
  {
    IndentsBlank();
    SkipBlanks("\n", s);
  }

  lemma EndOfFile(prec: Precedence)
    ensures ParseSections(prec, "}\n") == Some(([], ""))
  {
    EndParses(prec, "");
    assert "}\n" + "" == "}\n";
  }

  lemma TwoOkSections(prec: Precedence, a: string, b: string)
    requires IsName(a) && IsName(b)
    ensures ParseSections(prec, SectionText(a, OkText()) + ("\n" + (SectionText(b, OkText()) + "}\n")))
            == Some(([Section(a, [Plain(Accept)])] + ([Section(b, [Plain(Accept)])] + []), ""))
  {
    EndOfFile(prec);
    OkSectionParses(prec, b, "}\n", [], "");
    BlankBeforeSections(prec, SectionText(b, OkText()) + "}\n");
    OkSectionParses(prec, a, "\n" + (SectionText(b, OkText()) + "}\n"), [Section(b, [Plain(Accept)])] + [], "");
  }

  lemma BlankBeforeServers(prec: Precedence, blanks: string, s: string)
    requires AllBlank(blanks)
    ensures ParseServers(prec, blanks + s) == ParseServers(prec, s)
  {
    SkipBlanks(blanks, s);
  }

  lemma EmptyFile(prec: Precedence)
    ensures ParseServers(prec, "") == Some([])
  {
  }

  lemma LastServer(prec: Precedence, name: string, body: string, sections: seq<Section>)
    requires IsName(name)
    requires ParseSections(prec, body) == Some((sections, ""))
    ensures ParseServers(prec, "\n" + ServerText(name, body)) == Some([Server(name, sections)] + [])
  {
    EmptyFile(prec);
    ServerParses(prec, name, body, sections, "", []);
    IndentsBlank();
    BlankBeforeServers(prec, "\n", ServerText(name, body));
  }

  lemma TwoOkServer(prec: Precedence, name: string, a: string, b: string)
    requires IsName(name) && IsName(a) && IsName(b)
    ensures ParseServers(prec, "\n" +
              ServerText(name, SectionText(a, OkText()) + ("\n" + (SectionText(b, OkText()) + "}\n")))) ==
            Some([Server(name, [Section(a, [Plain(Accept)]), Section(b, [Plain(Accept)])])] + [])
  {
    TwoOkSections(prec, a, b);
    var sections := [Section(a, [Plain(Accept)]), Section(b, [Plain(Accept)])];
    assert [Section(a, [Plain(Accept)])] + ([Section(b, [Plain(Accept)])] + []) == sections;
    LastServer(prec, name, SectionText(a, OkText()) + ("\n" + (SectionText(b, OkText()) + "}\n")), sections);
  }

  lemma CoAParses(prec: Precedence)
    ensures ParseServers(prec, CoAText()) == Some([CoAServer()])
  {
    TwoOkServer(prec, "coa", "recv-coa", "send-coa");
    assert [CoAServer()] + [] == [CoAServer()];
  }

  lemma HeaderPlain()
    ensures HeaderLine() != "" && HeaderLine()[0] == '#' && '\n' !in HeaderLine()
  {
    assert '\n' !in "# sites-enabled/" && '\n' !in "default — " && '\n' !in "generated by " &&
           '\n' !in "freeradius-operator";
  }

  lemma WarningPlain()
    ensures WarningLine() != "" && WarningLine()[0] == '#' && '\n' !in WarningLine()
  {
    assert '\n' !in "# DO NOT EDIT" && '\n' !in " MANUALLY";
  }

  lemma TwoCommentsSkipped(first: string, second: string, rest: string)
    requires first != "" && first[0] == '#' && '\n' !in first
    requires second != "" && second[0] == '#' && '\n' !in second
    ensures Skip(first + ("\n" + (second + ("\n" + ("\n" + rest))))) == Skip(rest)
  {
    SkipComment(first, second + ("\n" + ("\n" + rest)));
    SkipComment(second, "\n" + rest);
    IndentsBlank();
    SkipBlanks("\n", rest);
  }

  lemma HeaderSkipped(rest: string)
    ensures Skip(HeaderLine() + ("\n" + (WarningLine() + ("\n" + ("\n" + rest))))) == Skip(rest)
  {
    HeaderPlain();
    WarningPlain();
    TwoCommentsSkipped(HeaderLine(), WarningLine(), rest);
  }

  lemma AfterHeader(prec: Precedence, s: string, servers: seq<Server>)
    requires ParseServers(prec, s) == Some(servers)
    ensures ParseServers(prec, HeaderLine() + ("\n" + (WarningLine() + ("\n" + ("\n" + s))))) == Some(servers)
  {
    HeaderSkipped(s);
  }

  lemma StagesAreNames()
    ensures forall stage | stage in STAGES :: IsName(stage)
  {
    forall stage | stage in STAGES
      ensures IsName(stage)
    {
      StageIsName(stage);
    }
  }

  lemma RestParses(prec: Precedence, coa: bool)
    ensures ParseServers(prec, if coa then CoAText() else "") == Some(if coa then [CoAServer()] else [])
  {
    if coa { CoAParses(prec); } else { EmptyFile(prec); }
  }

  lemma DefaultIsName()
    ensures IsName("default")
  {
  }

  lemma ServersParse(prec: Precedence, raw: Reading, arr: Arrangement, coa: bool)
    requires StagesPrintable(prec, raw, arr, STAGES) && StagesClear(arr, STAGES)
    ensures ParseServers(prec, ServersText(arr, coa)) == Some(Compiled(raw, arr, coa))
  {
    hide ParseServers, ParseSections, StagesText, StageSections, CoAText, CoAServer, ServerText, IsName;
    hide StagesPrintable, StagesClear;
    var rest := if coa then CoAText() else "";
    var others := if coa then [CoAServer()] else [];
    DefaultIsName();
    RestParses(prec, coa);
    StagesAreNames();
    StagesParse(prec, raw, arr, STAGES, rest);
    ServerParses(prec, "default", StagesText(arr, STAGES) + ("}\n" + rest), StageSections(raw, arr, STAGES), rest,
      others);
  }

  /** Parsing the printed file gives back the compiled policies. */
  lemma SitesParse(prec: Precedence, raw: Reading, arr: Arrangement, coa: bool)
    requires StagesPrintable(prec, raw, arr, STAGES) && StagesClear(arr, STAGES)
    ensures ParseServers(prec, SitesText(arr, coa)) == Some(Compiled(raw, arr, coa))
  {
    ServersParse(prec, raw, arr, coa);
    AfterHeader(prec, ServersText(arr, coa), Compiled(raw, arr, coa));
  }

  // ---------------------------------------------------------------- only readable policies are read back

  lemma StmtCleanMeansClear(a: PolicyAction)
    ensures (forall x | x in ActionStmt(a) :: StmtClean(x)) <==> ActionClear(a)
  {
    var first := ActionStmt(a);
    assert first != [] ==> first == [first[0]] && first[0] in first && (StmtClean(first[0]) <==> ActionClear(a));
  }

  lemma {:induction false} StmtsCleanMeansClear(actions: seq<PolicyAction>)
    ensures (forall x | x in ActionStmts(actions) :: StmtClean(x)) <==> forall a | a in actions :: ActionClear(a)
  {
    if actions != [] {
      StmtsCleanMeansClear(actions[1..]);
      StmtCleanMeansClear(actions[0]);
      hide ActionStmt, StmtClean, ActionClear;
      assert actions == [actions[0]] + actions[1..];
    }
  }

  lemma ItemCleanMeansClear(p: PolicySpec)
    requires p.rawConfig == ""
    ensures ItemClean(PolicyItem(p)) <==> PolicyClear(p)
  {
    StmtsCleanMeansClear(p.actions);
    TreeClosed(p.match_);
  }

  /** What is read is clean. */
  lemma ReadIsClean(prec: Precedence, text: string, items: seq<Item>)
    requires Reads(prec, text, items)
    ensures forall item | item in items :: ItemClean(item)
  {
    var end := "}\n";
    assert Skip(end) == end && Strip(end, "}\n") == Some("");
    assert ParseItems(prec, end) == Some(([], ""));
    assert ParseItems(prec, text + ("\n" + end)) == Some((items + [], ""));
    assert items + [] == items;
  }

  lemma ItemsCleanMeanClearOne(prec: Precedence, raw: Reading, p: PolicySpec)
    requires Printable(prec, raw, p)
    ensures (forall item | item in ItemsOf(raw, p) :: ItemClean(item)) <==> PolicyClear(p)
  {
    if p.rawConfig != "" {
      ReadIsClean(prec, p.rawConfig, raw(p.rawConfig));
    } else {
      ItemCleanMeansClear(p);
      assert PolicyItem(p) in ItemsOf(raw, p);
    }
  }

  lemma {:induction false} ItemsCleanMeanClear(prec: Precedence, raw: Reading, ps: seq<PolicySpec>)
    requires forall p | p in ps :: Printable(prec, raw, p)
    ensures (forall item | item in PolicyItems(raw, ps) :: ItemClean(item)) <==> forall p | p in ps :: PolicyClear(p)
  {
    if ps != [] {
      ItemsCleanMeanClear(prec, raw, ps[1..]);
      ItemsCleanMeanClearOne(prec, raw, ps[0]);
      hide ItemClean, PolicyClear, Printable, ItemsOf;
      var first, others := ItemsOf(raw, ps[0]), PolicyItems(raw, ps[1..]);
      assert forall item :: item in first + others <==> item in first || item in others;
      assert forall p :: p in ps <==> p == ps[0] || p in ps[1..];
    }
  }

  lemma {:induction false} SectionsCleanMeanClear(prec: Precedence, raw: Reading, arr: Arrangement, stages: seq<string>)
    requires StagesPrintable(prec, raw, arr, stages)
    ensures (forall s | s in StageSections(raw, arr, stages) :: SectionClean(s)) <==> StagesClear(arr, stages)
  {
    if stages != [] {
      SectionsCleanMeanClear(prec, raw, arr, stages[1..]);
      ItemsCleanMeanClear(prec, raw, AtStage(arr, stages[0]));
      assert stages == [stages[0]] + stages[1..];
      assert SectionClean(Section(stages[0], PolicyItems(raw, AtStage(arr, stages[0])))) <==>
             forall p | p in AtStage(arr, stages[0]) :: PolicyClear(p);
    }
  }

  /** The file, exactly, of templated policies and raw ones whose text can be read: it is read back as
      the compiled policies, what each raw text is read as standing at its policy's place, if and only
      if the regular expressions of the templated ones are closed and no module that they call is
      spelled like a word of the language. */
  lemma SitesRoundTrip(prec: Precedence, raw: Reading, arr: Arrangement, coa: bool)
    requires StagesPrintable(prec, raw, arr, STAGES)
    ensures ParseServers(prec, SitesText(arr, coa)) == Some(Compiled(raw, arr, coa)) <==> StagesClear(arr, STAGES)
  {
    if StagesClear(arr, STAGES) {
      SitesParse(prec, raw, arr, coa);
    } else {
      SectionsCleanMeanClear(prec, raw, arr, STAGES);
      var s :| s in StageSections(raw, arr, STAGES) && !SectionClean(s);
      assert s in Compiled(raw, arr, coa)[0].sections;
      assert Compiled(raw, arr, coa)[0] in Compiled(raw, arr, coa);
    }
  }

  // ---------------------------------------------------------------- running

  /** What can be done to a request. */
  datatype Effect =
    | SetAttribute(attribute: string, value: string)
    | RunModule(name: string)
    | RejectRequest
    | AcceptRequest
    | TryInTurn(modules: seq<string>)
    | SpreadOver(modules: seq<string>)

  /** What an action of a policy is to do (api/v1alpha1); an action of unknown kind does nothing. */
  function ActionEffect(a: PolicyAction): Option<Effect> {
    match a.kind
    case "set" => Some(SetAttribute(a.attribute, a.value))
    case "call" => Some(RunModule(a.moduleName))
    case "reject" => Some(RejectRequest)
    case "accept" => Some(AcceptRequest)
    case "redundant" => Some(TryInTurn(a.modules))
    case "load-balance" => Some(SpreadOver(a.modules))
    case _ => None
  }

  /** What a statement of the language does. */
  function StmtEffect(s: Stmt): Effect {
    match s
    case SetReply(attribute, value) => SetAttribute(attribute, value)
    case CallModule(name) => RunModule(name)
    case Reject => RejectRequest
    case Accept => AcceptRequest
    case Group(kind, modules) => if kind.Redundant? then TryInTurn(modules) else SpreadOver(modules)
  }

  /** How requests behave: which leaves hold, what each effect makes of the request (a module may
      change attributes that later conditions look at), and when processing stops. */
  datatype World<!S> = World(sat: (S, MatchLeaf) -> bool, act: (S, Effect) -> S, halted: S -> bool)

  function RunStmts<S>(w: World<S>, stmts: seq<Stmt>, st: S): S {
    if stmts == [] || w.halted(st) then st else RunStmts(w, stmts[1..], w.act(st, StmtEffect(stmts[0])))
  }

  function RunItems<S>(w: World<S>, items: seq<Item>, st: S): S {
    if items == [] then st
    else
      var st' :=
        match items[0] {
          case If(cond, body) => if Eval(cond, leaf => w.sat(st, leaf)) then RunStmts(w, body, st) else st
          case Plain(stmt) => RunStmts(w, [stmt], st)
        };
      RunItems(w, items[1..], st')
  }

  function RunSections<S>(w: World<S>, sections: seq<Section>, stage: string, st: S): S {
    if sections == [] then st
    else if sections[0].name == stage then RunItems(w, sections[0].items, st)
    else RunSections(w, sections[1..], stage, st)
  }

  /** Sends a request through one stage of the default server. */
  function RunStage<S>(w: World<S>, servers: seq<Server>, stage: string, st: S): S {
    if servers == [] then st
    else if servers[0].name == "default" then RunSections(w, servers[0].sections, stage, st)
    else RunStage(w, servers[1..], stage, st)
  }

  /** The source meaning: each policy in turn, a templated one guarded by its match on the request as
      it stands, a raw one as its text is read. */
  function RunPolicies<S>(w: World<S>, raw: Reading, ps: seq<PolicySpec>, st: S): S {
    if ps == [] then st
    else
      var st' :=
        if ps[0].rawConfig != "" then RunItems(w, raw(ps[0].rawConfig), st)
        else if MatchHolds(ps[0].match_, leaf => w.sat(st, leaf)) then RunActions(w, ps[0].actions, st)
        else st;
      RunPolicies(w, raw, ps[1..], st')
  }

  function RunActions<S>(w: World<S>, actions: seq<PolicyAction>, st: S): S {
    if actions == [] || w.halted(st) then st
    else
      var effect := ActionEffect(actions[0]);
      RunActions(w, actions[1..], if effect.None? then st else w.act(st, effect.value))
  }

  /** The statement of an action does what the action is to do. */
  lemma SameEffect(a: PolicyAction)
    ensures |ActionStmt(a)| <= 1
    ensures ActionEffect(a) == if ActionStmt(a) == [] then None else Some(StmtEffect(ActionStmt(a)[0]))
  {
  }

  lemma {:induction false} ActionsRun<S>(w: World<S>, actions: seq<PolicyAction>, st: S)
    ensures RunStmts(w, ActionStmts(actions), st) == RunActions(w, actions, st)
  {
    if actions != [] && !w.halted(st) {
      var first, effect := ActionStmt(actions[0]), ActionEffect(actions[0]);
      SameEffect(actions[0]);
      assert ActionStmts(actions)[|first|..] == ActionStmts(actions[1..]);
      ActionsRun(w, actions[1..], if effect.None? then st else w.act(st, effect.value));
    }
  }

  lemma {:induction false} RunConcat<S>(w: World<S>, a: seq<Item>, b: seq<Item>, st: S)
    ensures RunItems(w, a + b, st) == RunItems(w, b, RunItems(w, a, st))
    decreases |a|
  {
    if a == [] {
      assert a + b == b;
    } else {
      assert (a + b)[1..] == a[1..] + b;
      var st' :=
        match a[0] {
          case If(cond, body) => if Eval(cond, leaf => w.sat(st, leaf)) then RunStmts(w, body, st) else st
          case Plain(stmt) => RunStmts(w, [stmt], st)
        };
      assert RunItems(w, a, st) == RunItems(w, a[1..], st');
      assert RunItems(w, a + b, st) == RunItems(w, (a + b)[1..], st');
      RunConcat(w, a[1..], b, st');
    }
  }

  lemma PolicyRuns<S>(w: World<S>, p: PolicySpec, st: S)
    ensures RunItems(w, [PolicyItem(p)], st) ==
            if MatchHolds(p.match_, leaf => w.sat(st, leaf)) then RunActions(w, p.actions, st) else st
  {
    var sat := leaf => w.sat(st, leaf);
    TreeMeaning(p.match_, sat);
    ActionsRun(w, p.actions, st);
    assert [PolicyItem(p)][1..] == [];
  }

  lemma {:induction false} PoliciesRun<S>(w: World<S>, raw: Reading, ps: seq<PolicySpec>, st: S)
    ensures RunItems(w, PolicyItems(raw, ps), st) == RunPolicies(w, raw, ps, st)
  {
    if ps != [] {
      var st' := RunItems(w, ItemsOf(raw, ps[0]), st);
      RunConcat(w, ItemsOf(raw, ps[0]), PolicyItems(raw, ps[1..]), st);
      PolicyRuns(w, ps[0], st);
      PoliciesRun(w, raw, ps[1..], st');
    }
  }

  lemma {:induction false} SectionsRun<S>(
      w: World<S>, raw: Reading, arr: Arrangement, stages: seq<string>, stage: string, st: S)
    requires stage in stages
    ensures RunSections(w, StageSections(raw, arr, stages), stage, st) == RunPolicies(w, raw, AtStage(arr, stage), st)
  {
    if stages[0] == stage {
      PoliciesRun(w, raw, AtStage(arr, stage), st);
    } else {
      SectionsRun(w, raw, arr, stages[1..], stage, st);
      assert StageSections(raw, arr, stages)[1..] == StageSections(raw, arr, stages[1..]);
    }
  }

  lemma PrintableEverywhere(prec: Precedence, raw: Reading, policies: seq<PolicySpec>, arr: Arrangement)
    requires IsArrangement(arr, policies)
    requires forall p | p in policies :: Printable(prec, raw, p)
    ensures StagesPrintable(prec, raw, arr, STAGES)
  {
    forall stage, p | stage in STAGES && p in AtStage(arr, stage)
      ensures Printable(prec, raw, p)
    {
      assert p in multiset(AtStage(arr, stage));
      InStageMember(policies, stage, p);
    }
  }

  lemma ClearEverywhere(policies: seq<PolicySpec>, arr: Arrangement)
    requires IsArrangement(arr, policies)
    requires forall p | p in policies :: p.stage in STAGES
    ensures StagesClear(arr, STAGES) <==> forall p | p in policies :: PolicyClear(p)
  {
    forall p, stage | stage in STAGES
      ensures p in AtStage(arr, stage) <==> p in policies && p.stage == stage
    {
      assert p in AtStage(arr, stage) <==> p in multiset(AtStage(arr, stage));
      InStageMember(policies, stage, p);
    }
    if StagesClear(arr, STAGES) {
      forall p | p in policies
        ensures PolicyClear(p)
      {
        assert p.stage in STAGES && p in AtStage(arr, p.stage);
      }
    }
  }

  /** Compiler correctness. For any arrangement that renderSites may print, of templated policies and
      raw ones whose text can be read: the file is read back as the compiled policies if and only if
      every templated policy is readable, and then sending any request through any stage of it is
      running the policies of that stage, in ascending priority, each templated one guarded by its
      match and each raw one as its text is read. */
  lemma CompilerCorrect<S>(prec: Precedence, raw: Reading, w: World<S>, policies: seq<PolicySpec>, arr: Arrangement,
                           coa: bool, stage: string, st: S)
    requires IsArrangement(arr, policies) && KnownPolicies(policies)
    requires forall p | p in policies :: Printable(prec, raw, p)
    requires stage in STAGES
    ensures ParseServers(prec, SitesText(arr, coa)) == Some(Compiled(raw, arr, coa)) <==>
            forall p | p in policies :: PolicyClear(p)
    ensures RunStage(w, Compiled(raw, arr, coa), stage, st) == RunPolicies(w, raw, AtStage(arr, stage), st)
    ensures Sorted(AtStage(arr, stage)) && multiset(AtStage(arr, stage)) == multiset(InStage(policies, stage))
  {
    PrintableEverywhere(prec, raw, policies, arr);
    ClearEverywhere(policies, arr);
    SitesRoundTrip(prec, raw, arr, coa);
    SectionsRun(w, raw, arr, STAGES, stage, st);
  }
}
