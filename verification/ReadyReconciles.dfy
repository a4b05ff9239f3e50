/** The reconciles of policies and clients: two conditions, Ready and Invalid, that are to be
    opposite (radiuspolicy_controller.go, radiusclient_controller.go). */
module ReadyReconciles {
  import opened Wrappers
  import opened Specs
  import opened Objects
  import opened ApiServers
  import opened Sanitize
  import opened Sites
  import opened Clients
  import opened Rendering
  import opened RenderingMeaning
  import opened Statuses
  import opened ClusterReconciles

  // ---------------------------------------------------------------- verdicts

  /** The action kinds that the policy controller knows: two fewer than the renderer. */
  const CONTROLLER_KINDS: seq<string> := ["set", "call", "reject", "accept"]

  predicate ControllerKinds(actions: seq<PolicyAction>) {
    forall a | a in actions :: a.kind in CONTROLLER_KINDS
  }

  /** Why a policy is not ready; "Valid" if it is. */
  function PolicyVerdict(p: RadiusPolicy, clusters: set<string>): string {
    if p.spec.stage !in STAGES then "InvalidStage"
    else if !ControllerKinds(p.spec.actions) then "InvalidActionType"
    else if p.clusterRef !in clusters then "ClusterNotFound"
    else "Valid"
  }

  /** The verdicts that need no look at the cluster. */
  function OwnVerdict(p: RadiusPolicy): Option<string> {
    if p.spec.stage !in STAGES then Some("InvalidStage")
    else if !ControllerKinds(p.spec.actions) then Some("InvalidActionType")
    else None
  }

  function ClientVerdict(c: RadiusClient, clusters: set<string>): string {
    if c.clusterRef !in clusters then "ClusterNotFound" else "Valid"
  }

  /** The condition that a verdict is reported by first, and the other one. */
  function First(verdict: string): string {
    if verdict == "Valid" then "Ready" else "Invalid"
  }

  function Second(verdict: string): string {
    if verdict == "Valid" then "Invalid" else "Ready"
  }

  /** One condition is reported, and if the object can be read again, the other one too. */
  function Announced(s: ServerState, verdict: string, again: bool): ServerState {
    var first := ReportedOn(s, First(verdict), true, verdict);
    if again then ReportedOn(first, Second(verdict), false, verdict) else first
  }

  /** What a reconcile of a policy makes of its status, whatever calls and writes fail. */
  function PolicyOutcome(s: ServerState, w: World, policy: Option<RadiusPolicy>, clusters: set<string>): ServerState {
    if !Next(w).Works? || policy.None? then s
    else if OwnVerdict(policy.value).Some? then Announced(s, OwnVerdict(policy.value).value, Next(Rest(w)).Works?)
    else if !Next(Rest(w)).Works? then s
    else Announced(s, PolicyVerdict(policy.value, clusters), Next(Rest(Rest(w))).Works?)
  }

  function ClientOutcome(s: ServerState, w: World, c: Option<RadiusClient>, clusters: set<string>): ServerState {
    if !Next(w).Works? || c.None? || !Next(Rest(w)).Works? then s
    else Announced(s, ClientVerdict(c.value, clusters), Next(Rest(Rest(w))).Works?)
  }

  /** The conditions after a reconcile with working reads and writes. */
  function Judged(cs: seq<Condition>, verdict: string, now: int): seq<Condition> {
    Set(Set(cs, First(verdict), true, verdict, now), Second(verdict), false, verdict, now + 1)
  }

  // ---------------------------------------------------------------- reconciles

  class Judge {
    const api: ApiServer
    const server: Server

    constructor (api: ApiServer, server: Server)
      ensures this.api == api && this.server == server
    {
      this.api, this.server := api, server;
    }

    /** Reports one condition, reads the object again and reports the other; if the second read
        fails, the other condition stays as it was. */
    method Report(verdict: string)
      modifies api`faults, server
      ensures api.Now() == old(Rest(api.Now()))
      ensures server.Now() == Announced(old(server.Now()), verdict, old(Next(api.Now())).Works?)
    {
      var copy := new Copy(server.stored);
      server.Report(copy, if verdict == "Valid" then "Ready" else "Invalid", true, verdict);
      var outcome := api.Call();
      if outcome.Works? {
        copy := new Copy(server.stored);
        server.Report(copy, if verdict == "Valid" then "Invalid" else "Ready", false, verdict);
      }
    }

    method FirstUnknown(actions: seq<PolicyAction>) returns (unknown: bool)
      ensures unknown <==> !ControllerKinds(actions)
    {
      for i := 0 to |actions|
        invariant forall a | a in actions[..i] :: a.kind in CONTROLLER_KINDS
      {
        if actions[i].kind !in CONTROLLER_KINDS {
          assert actions[i] in actions;
          return true;
        }
      }
      return false;
    }

    method ReconcilePolicy(policy: Option<RadiusPolicy>, clusters: set<string>)
      modifies api`faults, server
      ensures server.Now() == PolicyOutcome(old(server.Now()), old(api.Now()), policy, clusters)
    {
      var outcome := api.Call();
      if !outcome.Works? || policy.None? {
        return;
      }
      var p := policy.value;
      if p.spec.stage !in STAGES {
        Report("InvalidStage");
        return;
      }
      var unknown := FirstUnknown(p.spec.actions);
      if unknown {
        Report("InvalidActionType");
        return;
      }
      outcome := api.Call();
      if !outcome.Works? {
        return;
      }
      if p.clusterRef !in clusters {
        Report("ClusterNotFound");
        return;
      }
      Report("Valid");
    }

    method ReconcileClient(rc: Option<RadiusClient>, clusters: set<string>)
      modifies api`faults, server
      ensures server.Now() == ClientOutcome(old(server.Now()), old(api.Now()), rc, clusters)
    {
      var outcome := api.Call();
      if !outcome.Works? || rc.None? {
        return;
      }
      outcome := api.Call();
      if !outcome.Works? {
        return;
      }
      if rc.value.clusterRef !in clusters {
        Report("ClusterNotFound");
        return;
      }
      Report("Valid");
    }
  }

  /** With working reads and writes a reconcile reports its verdict in full. */
  lemma UndisturbedJudgement(s: ServerState, m: Store, p: RadiusPolicy, c: RadiusClient, clusters: set<string>)
    requires s.writes == []
    ensures var after := PolicyOutcome(s, World(m, []), Some(p), clusters);
            after.writes == [] && after.stored == Judged(s.stored, PolicyVerdict(p, clusters), s.clock)
    ensures var after := ClientOutcome(s, World(m, []), Some(c), clusters);
            after.writes == [] && after.stored == Judged(s.stored, ClientVerdict(c, clusters), s.clock)
  {
  }

  /** One reconcile with working writes, exactly: Ready and Invalid are opposite and say the verdict if
      and only if the second read worked or the second condition was False before. */
  lemma OppositeExactly(s: ServerState, verdict: string, again: bool)
    requires s.writes == []
    ensures var now := Announced(s, verdict, again).stored;
            Holds(now, "Ready", verdict == "Valid") && Holds(now, "Invalid", verdict != "Valid") <==>
            again || Holds(s.stored, Second(verdict), false)
  {
    var first := ReportedOn(s, First(verdict), true, verdict);
    SetFinds(s.stored, First(verdict), true, verdict, s.clock);
    SetFinds(first.stored, Second(verdict), false, verdict, first.clock);
  }

  // ---------------------------------------------------------------- over any number of reconciles

  /** One reconcile: what it then reads, and how its calls fail. */
  datatype Turn =
    | PolicyTurn(policy: Option<RadiusPolicy>, clusters: set<string>, faults: seq<Outcome>)
    | ClientTurn(client: Option<RadiusClient>, clusters: set<string>, faults: seq<Outcome>)

  function TurnOutcome(s: ServerState, m: Store, t: Turn): ServerState {
    match t
    case PolicyTurn(policy, clusters, faults) => PolicyOutcome(s, World(m, faults), policy, clusters)
    case ClientTurn(client, clusters, faults) => ClientOutcome(s, World(m, faults), client, clusters)
  }

  function AfterTurns(s: ServerState, m: Store, turns: seq<Turn>): ServerState {
    if turns == [] then s
    else TurnOutcome(AfterTurns(s, m, turns[..|turns| - 1]), m, turns[|turns| - 1])
  }

  /** The object is there and every call works. */
  predicate Undisturbed(t: Turn) {
    t.faults == [] && if t.PolicyTurn? then t.policy.Some? else t.client.Some?
  }

  function Verdict(t: Turn): string
    requires Undisturbed(t)
  {
    if t.PolicyTurn? then PolicyVerdict(t.policy.value, t.clusters) else ClientVerdict(t.client.value, t.clusters)
  }

  /** Ready and Invalid are both there, once each, and opposite, and say the verdict. */
  predicate Says(cs: seq<Condition>, verdict: string) {
    Unique(cs) && Told(cs, "Ready", verdict == "Valid", verdict) && Told(cs, "Invalid", verdict != "Valid", verdict)
  }

  /** What the manager does with a policy or a client: one reconcile after the other, each on what it
      then reads and with calls and status writes that fail in their own way. */
  method JudgeAll(j: Judge, turns: seq<Turn>)
    modifies j.api, j.server
    ensures j.api.objects == old(j.api.objects)
    ensures j.server.Now() == AfterTurns(old(j.server.Now()), j.api.objects, turns)
    ensures Unique(old(j.server.stored)) ==> Unique(j.server.stored)
    ensures Unique(old(j.server.stored)) && turns != [] && Undisturbed(turns[|turns| - 1]) &&
            AfterTurns(old(j.server.Now()), j.api.objects, turns[..|turns| - 1]).writes == [] ==>
              Says(j.server.stored, Verdict(turns[|turns| - 1]))
  {
    for i := 0 to |turns|
      invariant j.api.objects == old(j.api.objects)
      invariant j.server.Now() == AfterTurns(old(j.server.Now()), j.api.objects, turns[..i])
    {
      j.api.faults := turns[i].faults;
      match turns[i] {
        case PolicyTurn(policy, clusters, _) => j.ReconcilePolicy(policy, clusters);
        case ClientTurn(client, clusters, _) => j.ReconcileClient(client, clusters);
      }
      assert turns[..i + 1][..i] == turns[..i];
    }
    assert turns[..|turns|] == turns;
    if Unique(old(j.server.stored)) {
      TurnsUnique(old(j.server.Now()), j.api.objects, turns);
      if turns != [] && Undisturbed(turns[|turns| - 1]) &&
         AfterTurns(old(j.server.Now()), j.api.objects, turns[..|turns| - 1]).writes == []
      {
        ReadyOppositeInvalid(old(j.server.Now()), j.api.objects, turns);
      }
    }
  }

  lemma AnnouncedUnique(s: ServerState, verdict: string, again: bool)
    requires Unique(s.stored)
    ensures Unique(Announced(s, verdict, again).stored)
  {
    var first := ReportedOn(s, First(verdict), true, verdict);
    SetUnique(s.stored, First(verdict), true, verdict, s.clock);
    SetUnique(first.stored, Second(verdict), false, verdict, first.clock);
  }

  lemma TurnUnique(s: ServerState, m: Store, t: Turn)
    requires Unique(s.stored)
    ensures Unique(TurnOutcome(s, m, t).stored)
  {
    hide Announced, ReportedOn, Unique;
    forall verdict, again
      ensures Unique(Announced(s, verdict, again).stored)
    {
      AnnouncedUnique(s, verdict, again);
    }
  }

  /** Whatever calls and writes fail, no condition ever appears twice. */
  lemma {:induction false} TurnsUnique(s: ServerState, m: Store, turns: seq<Turn>)
    requires Unique(s.stored)
    ensures Unique(AfterTurns(s, m, turns).stored)
  {
    if turns != [] {
      var n := |turns| - 1;
      TurnsUnique(s, m, turns[..n]);
      TurnUnique(AfterTurns(s, m, turns[..n]), m, turns[n]);
    }
  }

  lemma UndisturbedTurn(s: ServerState, m: Store, t: Turn)
    requires s.writes == [] && Undisturbed(t)
    ensures TurnOutcome(s, m, t).stored == Judged(s.stored, Verdict(t), s.clock) && TurnOutcome(s, m, t).writes == []
  {
  }

  lemma JudgedFinds(cs: seq<Condition>, verdict: string, now: int)
    ensures Told(Judged(cs, verdict, now), "Ready", verdict == "Valid", verdict)
    ensures Told(Judged(cs, verdict, now), "Invalid", verdict != "Valid", verdict)
  {
    SetFinds(cs, First(verdict), true, verdict, now);
    SetFinds(Set(cs, First(verdict), true, verdict, now), Second(verdict), false, verdict, now + 1);
  }

  /** One undisturbed reconcile repairs whatever the ones before it left, with any calls and writes of
      theirs failing: Ready and Invalid are both there, once each, and opposite, and Ready holds
      exactly when the last verdict is "Valid". */
  lemma ReadyOppositeInvalid(s: ServerState, m: Store, turns: seq<Turn>)
    requires Unique(s.stored) && turns != [] && Undisturbed(turns[|turns| - 1])
    requires AfterTurns(s, m, turns[..|turns| - 1]).writes == []
    ensures Says(AfterTurns(s, m, turns).stored, Verdict(turns[|turns| - 1]))
  {
    var n := |turns| - 1;
    var before := AfterTurns(s, m, turns[..n]);
    TurnsUnique(s, m, turns);
    UndisturbedTurn(before, m, turns[n]);
    JudgedFinds(before.stored, Verdict(turns[n]), before.clock);
  }

  /** A reconcile that judges as the last one did moves no transition time. */
  lemma SameVerdictKeepsTimes(cs: seq<Condition>, verdict: string, now: int, kind: string)
    requires Holds(cs, "Ready", verdict == "Valid") && Holds(cs, "Invalid", verdict != "Valid")
    requires kind in ["Ready", "Invalid"]
    ensures Find(cs, kind).Some? && Find(Judged(cs, verdict, now), kind).Some?
    ensures Find(Judged(cs, verdict, now), kind).value.since == Find(cs, kind).value.since
  {
    assert kind == "Ready" || kind == "Invalid";
    SetFinds(cs, First(verdict), true, verdict, now);
    SetFinds(Set(cs, First(verdict), true, verdict, now), Second(verdict), false, verdict, now + 1);
  }

  // ---------------------------------------------------------------- what Ready promises

  predicate GroupAction(a: PolicyAction) {
    a.kind == "redundant" || a.kind == "load-balance"
  }

  /** A policy is judged ready exactly when its cluster is there, the renderer's stage and action checks
      pass for it, and none of its actions groups modules: those the renderer takes and the controller
      refuses. */
  lemma ReadyExactly(p: RadiusPolicy, clusters: set<string>)
    ensures PolicyVerdict(p, clusters) == "Valid" <==>
            p.clusterRef in clusters && KnownPolicies([p.spec]) && forall a | a in p.spec.actions :: !GroupAction(a)
  {
    assert p.spec in [p.spec];
    assert ACTION_KINDS == CONTROLLER_KINDS + ["redundant", "load-balance"];
    var groups := ["redundant", "load-balance"];
    assert groups[0] in ACTION_KINDS && groups[1] in ACTION_KINDS;
    assert groups[0] !in CONTROLLER_KINDS && groups[1] !in CONTROLLER_KINDS;
    forall a: PolicyAction
      ensures a.kind in CONTROLLER_KINDS <==> a.kind in ACTION_KINDS && !GroupAction(a)
    {
      assert a.kind in ACTION_KINDS <==> a.kind in CONTROLLER_KINDS || a.kind in groups;
    }
  }

  predicate Refused(kind: string) {
    kind != "set" && kind != "call" && kind != "reject" && kind != "accept"
  }

  /** Why a policy is not ready. */
  function Reason(p: RadiusPolicy, clusters: set<string>): string {
    if p.spec.stage !in
       ["authorize", "authenticate", "preacct", "accounting", "post-auth", "pre-proxy", "post-proxy", "session"] then
      "InvalidStage"
    else if exists a | a in p.spec.actions :: Refused(a.kind) then "InvalidActionType"
    else if p.clusterRef !in clusters then "ClusterNotFound"
    else "Valid"
  }

  /** What an undisturbed reconcile says of a policy: it is ready, or invalid for this reason. */
  lemma PolicyJudgedExactly(s: ServerState, m: Store, p: RadiusPolicy, clusters: set<string>)
    requires s.writes == []
    ensures var now, reason := PolicyOutcome(s, World(m, []), Some(p), clusters).stored, Reason(p, clusters);
            Told(now, "Ready", reason == "Valid", reason) && Told(now, "Invalid", reason != "Valid", reason)
  {
    var t := PolicyTurn(Some(p), clusters, []);
    UndisturbedTurn(s, m, t);
    JudgedFinds(s.stored, Verdict(t), s.clock);
    ReasonIsVerdict(p, clusters);
  }

  lemma ReasonIsVerdict(p: RadiusPolicy, clusters: set<string>)
    ensures Reason(p, clusters) == PolicyVerdict(p, clusters)
  {
    assert CONTROLLER_KINDS[0] == "set" && CONTROLLER_KINDS[1] == "call" && CONTROLLER_KINDS[2] == "reject" &&
           CONTROLLER_KINDS[3] == "accept";
    assert forall a: PolicyAction :: a.kind in CONTROLLER_KINDS <==> !Refused(a.kind);
  }

  /** And of a client: it is ready exactly if its cluster is there. */
  lemma ClientJudgedExactly(s: ServerState, m: Store, c: RadiusClient, clusters: set<string>)
    requires s.writes == []
    ensures var now := ClientOutcome(s, World(m, []), Some(c), clusters).stored;
            var found := c.clusterRef in clusters;
            var reason := if found then "Valid" else "ClusterNotFound";
            Told(now, "Ready", found, reason) && Told(now, "Invalid", !found, reason)
  {
    var t := ClientTurn(Some(c), clusters, []);
    UndisturbedTurn(s, m, t);
    JudgedFinds(s.stored, Verdict(t), s.clock);
  }

  /** Whatever fails, a reconcile of a policy leaves each condition as it was or makes it true of the
      policy, and without the policy it changes nothing. */
  lemma NeverWrong(s: ServerState, w: World, policy: Option<RadiusPolicy>, clusters: set<string>, kind: string)
    ensures var now := PolicyOutcome(s, w, policy, clusters).stored;
            || Find(now, kind) == Find(s.stored, kind)
            || (policy.Some? && var reason := Reason(policy.value, clusters);
                ((kind == "Ready" && Told(now, kind, reason == "Valid", reason)) ||
                 (kind == "Invalid" && Told(now, kind, reason != "Valid", reason))))
  {
    if policy.Some? {
      ReasonIsVerdict(policy.value, clusters);
      var reason := Reason(policy.value, clusters);
      hide Reason;
      forall again
        ensures var now := Announced(s, reason, again).stored;
                || Find(now, kind) == Find(s.stored, kind)
                || (kind == "Ready" && Told(now, kind, reason == "Valid", reason))
                || (kind == "Invalid" && Told(now, kind, reason != "Valid", reason))
      {
        AnnouncedFinds(s, reason, again, kind);
      }
    }
  }

  lemma AnnouncedFinds(s: ServerState, verdict: string, again: bool, kind: string)
    ensures var now := Announced(s, verdict, again).stored;
            || Find(now, kind) == Find(s.stored, kind)
            || (kind == "Ready" && Told(now, kind, verdict == "Valid", verdict))
            || (kind == "Invalid" && Told(now, kind, verdict != "Valid", verdict))
  {
    var first := ReportedOn(s, First(verdict), true, verdict);
    SetFinds(s.stored, First(verdict), true, verdict, s.clock);
    SetFinds(first.stored, Second(verdict), false, verdict, first.clock);
  }

  /** If all policies of a cluster are ready, the renderer finds no unknown stage or action kind, and
      its field checks pass exactly if the policies are valid, which no controller checks. */
  lemma ReadyPoliciesRender(items: seq<RadiusPolicy>, clusters: set<string>, name: string)
    requires forall p | p in items && p.clusterRef == name :: PolicyVerdict(p, clusters) == "Valid"
    ensures SitesCheck(MatchingPolicies(items, name)).None?
    ensures PoliciesCheck(MatchingPolicies(items, name)).None? <==>
            forall p | p in items && p.clusterRef == name :: ValidPolicy(p.spec)
  {
    forall spec
      ensures spec in MatchingPolicies(items, name) <==>
              exists p :: p in items && p.clusterRef == name && p.spec == spec
    {
      MatchingAre(items, name, spec);
    }
    forall spec | spec in MatchingPolicies(items, name)
      ensures spec.stage in STAGES && KnownKinds(spec.actions)
    {
      var p :| p in items && p.clusterRef == name && p.spec == spec;
      ReadyExactly(p, clusters + {p.clusterRef});
      assert spec in [spec];
    }
    SitesCheckPasses(MatchingPolicies(items, name));
    PoliciesCheckPasses(MatchingPolicies(items, name));
  }

  /** A policy that is ready and that no configuration can be rendered with. */
  lemma ReadyPolicyIsRefused(name: string, ctx: Context)
    ensures var call := PolicyAction("call", "1x", [], "", "");
            var p := RadiusPolicy("c", PolicySpec(name, "authorize", 0, None, [call], ""));
            PolicyVerdict(p, {"c"}) == "Valid" && RenderCheck(ctx.(policies := [p.spec])).Some?
  {
    var call := PolicyAction("call", "1x", [], "", "");
    var spec := PolicySpec(name, "authorize", 0, None, [call], "");
    assert CONTROLLER_KINDS[1] == "call" && STAGES[0] == "authorize";
    assert call in spec.actions && !ValidAction(call);
    var policies := [spec];
    assert policies[0] == spec;
  }

  lemma {:induction false} MatchingAre(items: seq<RadiusPolicy>, name: string, spec: PolicySpec)
    ensures spec in MatchingPolicies(items, name) <==> exists p :: p in items && p.clusterRef == name && p.spec == spec
  {
    if items != [] {
      var n := |items| - 1;
      assert items == items[..n] + [items[n]];
      MatchingAre(items[..n], name, spec);
    }
  }
}
