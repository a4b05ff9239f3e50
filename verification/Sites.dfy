/** sites-enabled/default: how policies are checked, grouped by stage, sorted by priority and
    printed (internal/renderer/sites.go, templates.go, templates/sites-enabled/default.tmpl). */
module Sites {
  import opened Wrappers
  import opened Text
  import opened Specs
  import opened Sanitize
  import opened Conditions

  const STAGES: seq<string> := [
    "authorize", "authenticate", "preacct", "accounting", "post-auth", "pre-proxy", "post-proxy", "session"]

  const ACTION_KINDS: seq<string> := ["set", "call", "reject", "accept", "redundant", "load-balance"]

  datatype SiteError = InvalidStage(stage: string) | InvalidAction(kind: string)

  // ---------------------------------------------------------------- printing one policy

  const FOUR: string := "    "
  const EIGHT: string := "        "
  const INDENT: string := "            "

  function ModuleLines(modules: seq<string>, indent: string): string {
    if modules == [] then "" else (indent + (FOUR + (modules[0] + "\n"))) + ModuleLines(modules[1..], indent)
  }

  function GroupText(keyword: string, modules: seq<string>, indent: string): string {
    indent + (keyword + (" {\n" + (ModuleLines(modules, indent) + (indent + "}\n"))))
  }

  function SetText(attribute: string, value: string, indent: string): string {
    indent + ("update reply {\n" + (indent + (FOUR + (attribute + (" := \"" + (value + ("\"\n" + (indent + "}\n"))))))))
  }

  function ActionText(a: PolicyAction, indent: string): string {
    if a.kind == "set" then SetText(a.attribute, a.value, indent)
    else if a.kind == "call" then indent + (a.moduleName + "\n")
    else if a.kind == "reject" then indent + ("reject" + "\n")
    else if a.kind == "accept" then indent + ("ok" + "\n")
    else if a.kind == "redundant" || a.kind == "load-balance" then GroupText(a.kind, a.modules, indent)
    else ""
  }

  method RenderGroupAction(keyword: string, modules: seq<string>, indent: string) returns (r: string)
    ensures r == GroupText(keyword, modules, indent)
  {
    r := indent + (keyword + " {\n");
    ghost var head := r;
    var i := 0;
    while i < |modules|
      invariant 0 <= i <= |modules|
      invariant r + ModuleLines(modules[i..], indent) == head + ModuleLines(modules, indent)
    {
      var line := indent + (FOUR + (modules[i] + "\n"));
      Assoc(r, line, ModuleLines(modules[i + 1..], indent));
      assert modules[i..][1..] == modules[i + 1..];
      r := r + line;
      i := i + 1;
    }
    Assoc(head, ModuleLines(modules, indent), indent + "}\n");
    Push3(indent, keyword, " {\n", ModuleLines(modules, indent) + (indent + "}\n"));
    r := r + (indent + "}\n");
  }

  function ActionsText(actions: seq<PolicyAction>): string {
    if actions == [] then "" else ActionText(actions[0], INDENT) + ActionsText(actions[1..])
  }

  function Decimal(n: int): (r: string)
    ensures r != "" && forall c | c in r :: IsDigit(c) || c == '-'
    decreases n < 0, if n < 0 then -n else n
  {
    if n < 0 then "-" + Decimal(-n)
    else if n < 10 then ['0' + n as char]
    else Decimal(n / 10) + ['0' + (n % 10) as char]
  }

  function CommentText(p: PolicySpec): string {
    "# priority " + (Decimal(p.priority) + (": " + p.name))
  }

  function GuardedText(p: PolicySpec): string {
    EIGHT + ("if (" + (ConditionText(p.match_) + (") {\n" + (ActionsText(p.actions) + (EIGHT + "}\n")))))
  }

  function PolicyText(p: PolicySpec): string {
    if p.rawConfig != "" then EIGHT + (p.rawConfig + "\n")
    else EIGHT + (CommentText(p) + ("\n" + GuardedText(p)))
  }

  // ---------------------------------------------------------------- printing the file

  function PoliciesText(ps: seq<PolicySpec>): string {
    if ps == [] then "" else PolicyText(ps[0]) + PoliciesText(ps[1..])
  }

  function SectionText(name: string, body: string): string {
    FOUR + (name + (" {\n" + (body + (FOUR + "}\n"))))
  }

  /** The policies of each stage in the order in which they are printed. */
  type Arrangement = map<string, seq<PolicySpec>>

  function AtStage(arr: Arrangement, stage: string): seq<PolicySpec> {
    if stage in arr then arr[stage] else []
  }

  function StagesText(arr: Arrangement, stages: seq<string>): string {
    if stages == [] then ""
    else SectionText(stages[0], PoliciesText(AtStage(arr, stages[0]))) + StagesText(arr, stages[1..])
  }

  // The comment lines are in pieces because long literals are slow to verify (see Text).

  function HeaderLine(): string {
    "# sites-enabled/" + ("default — " + ("generated by " + "freeradius-operator"))
  }

  function WarningLine(): string {
    "# DO NOT EDIT" + " MANUALLY"
  }

  function ServerText(name: string, body: string): string {
    "server " + (name + (" {\n" + body))
  }

  function CoAText(): string {
    "\n" + ServerText("coa", CoABody())
  }

  function CoABody(): string {
    SectionText("recv-coa", OkText()) + ("\n" + (SectionText("send-coa", OkText()) + "}\n"))
  }

  function OkText(): string {
    EIGHT + ("ok" + "\n")
  }

  function SitesText(arr: Arrangement, coa: bool): string {
    HeaderLine() + ("\n" + (WarningLine() + ("\n" + ("\n" + ServersText(arr, coa)))))
  }

  function ServersText(arr: Arrangement, coa: bool): string {
    ServerText("default", StagesText(arr, STAGES) + ("}\n" + if coa then CoAText() else ""))
  }

  // ---------------------------------------------------------------- checking

  function ActionsCheck(actions: seq<PolicyAction>): Option<SiteError> {
    if actions == [] then None
    else if actions[0].kind !in ACTION_KINDS then Some(InvalidAction(actions[0].kind))
    else ActionsCheck(actions[1..])
  }

  function SitesCheck(policies: seq<PolicySpec>): Option<SiteError> {
    if policies == [] then None
    else if policies[0].stage !in STAGES then Some(InvalidStage(policies[0].stage))
    else if ActionsCheck(policies[0].actions).Some? then ActionsCheck(policies[0].actions)
    else SitesCheck(policies[1..])
  }

  predicate KnownKinds(actions: seq<PolicyAction>) {
    forall a | a in actions :: a.kind in ACTION_KINDS
  }

  predicate KnownPolicies(policies: seq<PolicySpec>) {
    forall p | p in policies :: p.stage in STAGES && KnownKinds(p.actions)
  }

  lemma {:induction false} ActionsCheckPasses(actions: seq<PolicyAction>)
    ensures ActionsCheck(actions).None? <==> KnownKinds(actions)
  {
    if actions != [] {
      ActionsCheckPasses(actions[1..]);
      assert actions == [actions[0]] + actions[1..];
    }
  }

  /** The check passes exactly on known stages and action kinds, raw policies included. */
  lemma {:induction false} SitesCheckPasses(policies: seq<PolicySpec>)
    ensures SitesCheck(policies).None? <==> KnownPolicies(policies)
  {
    if policies != [] {
      ActionsCheckPasses(policies[0].actions);
      SitesCheckPasses(policies[1..]);
      assert policies == [policies[0]] + policies[1..];
    }
  }

  // ---------------------------------------------------------------- grouping and sorting

  function InStage(policies: seq<PolicySpec>, stage: string): seq<PolicySpec> {
    if policies == [] then []
    else (if policies[0].stage == stage then [policies[0]] else []) + InStage(policies[1..], stage)
  }

  predicate Sorted(ps: seq<PolicySpec>) {
    forall i, j | 0 <= i < j < |ps| :: ps[i].priority <= ps[j].priority
  }

  /** All that grouping and an unstable sort promise: each stage holds its own policies, in
      ascending priority. */
  predicate IsArrangement(arr: Arrangement, policies: seq<PolicySpec>) {
    forall stage | stage in STAGES ::
      multiset(AtStage(arr, stage)) == multiset(InStage(policies, stage)) && Sorted(AtStage(arr, stage))
  }

  function InsertByPriority(p: PolicySpec, ps: seq<PolicySpec>): seq<PolicySpec> {
    if ps == [] then [p]
    else if p.priority < ps[0].priority then [p] + ps
    else [ps[0]] + InsertByPriority(p, ps[1..])
  }

  lemma {:induction false} InsertKeeps(p: PolicySpec, ps: seq<PolicySpec>)
    ensures multiset(InsertByPriority(p, ps)) == multiset(ps) + multiset{p}
  {
    if ps != [] {
      assert ps == [ps[0]] + ps[1..];
      InsertKeeps(p, ps[1..]);
    }
  }

  lemma {:induction false} InsertSorted(p: PolicySpec, ps: seq<PolicySpec>)
    requires Sorted(ps)
    ensures Sorted(InsertByPriority(p, ps))
  {
    if ps != [] && p.priority >= ps[0].priority {
      var r := InsertByPriority(p, ps[1..]);
      InsertSorted(p, ps[1..]);
      InsertKeeps(p, ps[1..]);
      forall x | x in r
        ensures ps[0].priority <= x.priority
      {
        assert x in multiset(r);
        assert x in ps[1..] || x == p;
      }
      SortedCons(ps[0], r);
    }
  }

  lemma SortedCons(p: PolicySpec, ps: seq<PolicySpec>)
    ensures Sorted(ps) && (forall x | x in ps :: p.priority <= x.priority) ==> Sorted([p] + ps)
  {
  }

  /** sort.Slice: sorted and a permutation, and nothing about equal priorities. */
  method SortByPriority(ps: seq<PolicySpec>) returns (r: seq<PolicySpec>)
    ensures Sorted(r) && multiset(r) == multiset(ps)
  {
    r := [];
    for i := 0 to |ps|
      invariant Sorted(r) && multiset(r) == multiset(ps[..i])
    {
      assert ps[..i + 1] == ps[..i] + [ps[i]];
      InsertKeeps(ps[i], r);
      InsertSorted(ps[i], r);
      r := InsertByPriority(ps[i], r);
    }
    assert ps[..|ps|] == ps;
  }

  lemma {:induction false} InStageSnoc(policies: seq<PolicySpec>, p: PolicySpec, stage: string)
    ensures InStage(policies + [p], stage) == InStage(policies, stage) + if p.stage == stage then [p] else []
  {
    if policies == [] {
      assert policies + [p] == [p];
      assert InStage([p][1..], stage) == [];
    } else {
      InStageSnoc(policies[1..], p, stage);
      assert (policies + [p])[1..] == policies[1..] + [p];
    }
  }

  ghost predicate Groups(byStage: Arrangement, policies: seq<PolicySpec>) {
    forall stage :: AtStage(byStage, stage) == InStage(policies, stage)
  }

  lemma GroupStep(byStage: Arrangement, policies: seq<PolicySpec>, p: PolicySpec)
    requires Groups(byStage, policies)
    ensures Groups(byStage[p.stage := AtStage(byStage, p.stage) + [p]], policies + [p])
  {
    var after := byStage[p.stage := AtStage(byStage, p.stage) + [p]];
    forall stage
      ensures AtStage(after, stage) == InStage(policies + [p], stage)
    {
      InStageSnoc(policies, p, stage);
      assert AtStage(byStage, stage) == InStage(policies, stage);
    }
  }

  method GroupByStage(policies: seq<PolicySpec>) returns (byStage: Arrangement)
    ensures Groups(byStage, policies)
  {
    byStage := map[];
    for i := 0 to |policies|
      invariant Groups(byStage, policies[..i])
    {
      var p := policies[i];
      GroupStep(byStage, policies[..i], p);
      assert policies[..i + 1] == policies[..i] + [p];
      byStage := byStage[p.stage := AtStage(byStage, p.stage) + [p]];
    }
    assert policies[..|policies|] == policies;
  }

  method CheckSites(policies: seq<PolicySpec>) returns (r: Option<SiteError>)
    ensures r == SitesCheck(policies)
  {
    for i := 0 to |policies|
      invariant SitesCheck(policies) == SitesCheck(policies[i..])
    {
      var p := policies[i];
      if p.stage !in STAGES {
        return Some(InvalidStage(p.stage));
      }
      for j := 0 to |p.actions|
        invariant ActionsCheck(p.actions) == ActionsCheck(p.actions[j..])
      {
        if p.actions[j].kind !in ACTION_KINDS {
          return Some(InvalidAction(p.actions[j].kind));
        }
        assert p.actions[j..][1..] == p.actions[j + 1..];
      }
      assert policies[i..][1..] == policies[i + 1..];
    }
    return None;
  }

  method SortStages(grouped: Arrangement) returns (byStage: Arrangement)
    ensures forall stage :: multiset(AtStage(byStage, stage)) == multiset(AtStage(grouped, stage))
    ensures forall stage :: Sorted(AtStage(byStage, stage))
  {
    byStage := grouped;
    var unsorted := byStage.Keys;
    while unsorted != {}
      invariant unsorted <= byStage.Keys
      invariant forall stage :: multiset(AtStage(byStage, stage)) == multiset(AtStage(grouped, stage))
      invariant forall stage :: stage !in unsorted ==> Sorted(AtStage(byStage, stage))
      decreases |unsorted|
    {
      var stage :| stage in unsorted;
      assert AtStage(byStage, stage) == byStage[stage];
      var sorted := SortByPriority(byStage[stage]);
      byStage := byStage[stage := sorted];
      unsorted := unsorted - {stage};
    }
  }

  method RenderSites(policies: seq<PolicySpec>, coaEnabled: bool) returns (r: Result<string, SiteError>)
    ensures r.Err? <==> SitesCheck(policies).Some?
    ensures r.Err? ==> Some(r.error) == SitesCheck(policies)
    ensures r.Ok? ==> exists arr: Arrangement :: IsArrangement(arr, policies) && r.value == SitesText(arr, coaEnabled)
  {
    var error := CheckSites(policies);
    if error.Some? {
      return Err(error.value);
    }
    var grouped := GroupByStage(policies);
    var byStage := SortStages(grouped);
    assert forall stage :: AtStage(grouped, stage) == InStage(policies, stage);
    assert IsArrangement(byStage, policies);
    return Ok(SitesText(byStage, coaEnabled));
  }

  // ---------------------------------------------------------------- conservation and order

  function InStages(policies: seq<PolicySpec>, stages: seq<string>): multiset<PolicySpec> {
    if stages == [] then multiset{} else multiset(InStage(policies, stages[0])) + InStages(policies, stages[1..])
  }

  function Arranged(arr: Arrangement, stages: seq<string>): multiset<PolicySpec> {
    if stages == [] then multiset{} else multiset(AtStage(arr, stages[0])) + Arranged(arr, stages[1..])
  }

  predicate NoRepeats(stages: seq<string>) {
    forall i, j | 0 <= i < j < |stages| :: stages[i] != stages[j]
  }

  lemma StagesDistinct()
    ensures NoRepeats(STAGES)
  {
    assert forall i, j | 0 <= i < j < 8 ::
           |STAGES[i]| != |STAGES[j]| || STAGES[i][4] != STAGES[j][4] || STAGES[i][5] != STAGES[j][5];
  }

  lemma InStageCons(p: PolicySpec, others: seq<PolicySpec>, stage: string)
    ensures multiset(InStage([p] + others, stage)) ==
            multiset(InStage(others, stage)) + if p.stage == stage then multiset{p} else multiset{}
  {
    assert ([p] + others)[1..] == others;
  }

  lemma {:induction false} InStagesStep(p: PolicySpec, others: seq<PolicySpec>, stages: seq<string>)
    requires NoRepeats(stages)
    ensures InStages([p] + others, stages) ==
            InStages(others, stages) + if p.stage in stages then multiset{p} else multiset{}
  {
    if stages != [] {
      InStagesStep(p, others, stages[1..]);
      InStageCons(p, others, stages[0]);
      assert p.stage in stages <==> p.stage == stages[0] || p.stage in stages[1..];
    }
  }

  lemma {:induction false} InStagesTotal(policies: seq<PolicySpec>, stages: seq<string>)
    requires NoRepeats(stages) && forall p | p in policies :: p.stage in stages
    ensures InStages(policies, stages) == multiset(policies)
  {
    if policies == [] {
      InStagesNone(stages);
    } else {
      assert policies == [policies[0]] + policies[1..];
      InStagesStep(policies[0], policies[1..], stages);
      InStagesTotal(policies[1..], stages);
    }
  }

  lemma {:induction false} InStagesNone(stages: seq<string>)
    ensures InStages([], stages) == multiset{}
  {
    if stages != [] {
      InStagesNone(stages[1..]);
    }
  }

  lemma {:induction false} ArrangedIsGrouped(arr: Arrangement, policies: seq<PolicySpec>, stages: seq<string>)
    requires IsArrangement(arr, policies) && forall stage | stage in stages :: stage in STAGES
    ensures Arranged(arr, stages) == InStages(policies, stages)
  {
    if stages != [] {
      ArrangedIsGrouped(arr, policies, stages[1..]);
    }
  }

  /** Nothing is lost, duplicated or moved to another stage: the printed stages partition the
      policies as a multiset. */
  lemma StagesPartition(arr: Arrangement, policies: seq<PolicySpec>)
    requires IsArrangement(arr, policies) && SitesCheck(policies).None?
    ensures Arranged(arr, STAGES) == multiset(policies)
    ensures forall stage, p | stage in STAGES && p in AtStage(arr, stage) :: p.stage == stage && p in policies
  {
    SitesCheckPasses(policies);
    ArrangedIsGrouped(arr, policies, STAGES);
    StagesDistinct();
    InStagesTotal(policies, STAGES);
    forall stage, p | stage in STAGES && p in AtStage(arr, stage)
      ensures p.stage == stage && p in policies
    {
      assert p in multiset(AtStage(arr, stage));
      InStageMember(policies, stage, p);
    }
  }

  lemma {:induction false} InStageMember(policies: seq<PolicySpec>, stage: string, p: PolicySpec)
    ensures p in InStage(policies, stage) <==> p in policies && p.stage == stage
  {
    if policies != [] {
      InStageMember(policies[1..], stage, p);
      assert policies == [policies[0]] + policies[1..];
    }
  }

  /** No two different policies, and no policy twice, at one priority of one stage. */
  predicate DistinctPriorities(ps: seq<PolicySpec>) {
    forall i, j | 0 <= i < j < |ps| :: ps[i].priority != ps[j].priority
  }

  lemma SameHead(a: seq<PolicySpec>, b: seq<PolicySpec>)
    requires Sorted(a) && Sorted(b) && multiset(a) == multiset(b) && DistinctPriorities(a) && a != [] && b != []
    ensures a[0] == b[0]
  {
    assert b[0] in multiset(a) && a[0] in multiset(b);
    var i :| 0 <= i < |a| && a[i] == b[0];
    var j :| 0 <= j < |b| && b[j] == a[0];
    assert a[0].priority <= a[i].priority == b[0].priority <= b[j].priority == a[0].priority;
  }

  lemma WithoutHead(a: seq<PolicySpec>)
    requires a != []
    ensures multiset(a[1..]) == multiset(a) - multiset{a[0]}
    ensures Sorted(a) ==> Sorted(a[1..])
    ensures DistinctPriorities(a) ==> DistinctPriorities(a[1..])
  {
    assert a == [a[0]] + a[1..];
  }

  lemma SameEmpty(a: seq<PolicySpec>, b: seq<PolicySpec>)
    requires multiset(a) == multiset(b)
    ensures a == [] <==> b == []
  {
    assert a != [] ==> a[0] in multiset(a);
    assert b != [] ==> b[0] in multiset(b);
  }

  lemma {:induction false} SortedUnique(a: seq<PolicySpec>, b: seq<PolicySpec>)
    requires Sorted(a) && Sorted(b) && multiset(a) == multiset(b) && DistinctPriorities(a)
    ensures a == b
  {
    SameEmpty(a, b);
    if a != [] {
      SameHead(a, b);
      WithoutHead(a);
      WithoutHead(b);
      SortedUnique(a[1..], b[1..]);
      SameCons(a, b);
    }
  }

  lemma SameCons(a: seq<PolicySpec>, b: seq<PolicySpec>)
    requires a != [] && b != [] && a[0] == b[0] && a[1..] == b[1..]
    ensures a == b
  {
    assert a == [a[0]] + a[1..] && b == [b[0]] + b[1..];
  }

  lemma {:induction false} InStageCount(policies: seq<PolicySpec>, stage: string, p: PolicySpec)
    ensures multiset(InStage(policies, stage))[p] == if p.stage == stage then multiset(policies)[p] else 0
  {
    if policies != [] {
      InStageCount(policies[1..], stage, p);
      assert policies == [policies[0]] + policies[1..];
    }
  }

  lemma {:induction false} SameStagesSameText(arr: Arrangement, brr: Arrangement, stages: seq<string>)
    requires forall stage | stage in stages :: AtStage(arr, stage) == AtStage(brr, stage)
    ensures StagesText(arr, stages) == StagesText(brr, stages)
  {
    if stages != [] {
      SameStagesSameText(arr, brr, stages[1..]);
    }
  }

  /** With distinct priorities in every stage the file does not depend on the order in which the
      policies were listed, nor on the sorting algorithm. */
  lemma OrderOfInputIrrelevant(policies: seq<PolicySpec>, listed: seq<PolicySpec>, arr: Arrangement, brr: Arrangement,
      coa: bool)
    requires multiset(policies) == multiset(listed)
    requires IsArrangement(arr, policies) && IsArrangement(brr, listed)
    requires forall stage | stage in STAGES :: DistinctPriorities(AtStage(arr, stage))
    ensures SitesText(arr, coa) == SitesText(brr, coa)
  {
    forall stage | stage in STAGES
      ensures AtStage(arr, stage) == AtStage(brr, stage)
    {
      forall p
        ensures multiset(InStage(policies, stage))[p] == multiset(InStage(listed, stage))[p]
      {
        InStageCount(policies, stage, p);
        InStageCount(listed, stage, p);
      }
      assert multiset(InStage(policies, stage)) == multiset(InStage(listed, stage));
      SortedUnique(AtStage(arr, stage), AtStage(brr, stage));
    }
    SameStagesSameText(arr, brr, STAGES);
  }

  lemma Exchange(ps: seq<PolicySpec>, i: nat, j: nat)
    requires i < j < |ps| && ps[i].priority == ps[j].priority
    ensures multiset(ps[i := ps[j]][j := ps[i]]) == multiset(ps)
    ensures Sorted(ps) ==> Sorted(ps[i := ps[j]][j := ps[i]])
  {
  }

  /** Equal priorities are where the promise ends: exchanging two such policies gives another
      arrangement of the same input. */
  lemma EqualPrioritiesUnordered(arr: Arrangement, policies: seq<PolicySpec>, stage: string, i: nat, j: nat)
    requires IsArrangement(arr, policies) && stage in STAGES
    requires i < j < |AtStage(arr, stage)|
    requires AtStage(arr, stage)[i].priority == AtStage(arr, stage)[j].priority
    ensures var ps := AtStage(arr, stage);
            IsArrangement(arr[stage := ps[i := ps[j]][j := ps[i]]], policies)
  {
    var ps := AtStage(arr, stage);
    Exchange(ps, i, j);
    var brr := arr[stage := ps[i := ps[j]][j := ps[i]]];
    forall other | other in STAGES
      ensures multiset(AtStage(brr, other)) == multiset(InStage(policies, other)) && Sorted(AtStage(brr, other))
    {
      assert other != stage ==> AtStage(brr, other) == AtStage(arr, other);
    }
  }
}
