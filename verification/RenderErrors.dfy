/** Which error Render reports: the first, of the first part in which there is one. */
module RenderErrors {
  import opened Wrappers
  import opened Specs
  import opened Sanitize
  import opened Clients
  import opened Sites
  import opened ModuleTexts
  import opened Rendering
  import RenderingMeaning

  lemma {:induction false} FirstBadClient(clients: seq<ClientSpec>, i: nat)
    requires i < |clients| && !ValidClient(clients[i]) && forall j | 0 <= j < i :: ValidClient(clients[j])
    ensures ClientsCheck(clients) == Some(BadClient(clients[i].name))
  {
    hide ValidClient;
    if i > 0 {
      assert forall j | 0 <= j < i - 1 :: clients[1..][j] == clients[j + 1];
      FirstBadClient(clients[1..], i - 1);
    }
  }

  lemma {:induction false} FirstBadModule(modules: seq<ModuleConfig>, i: nat)
    requires i < |modules| && modules[i].enabled && !ValidModule(modules[i])
    requires forall j | 0 <= j < i && modules[j].enabled :: ValidModule(modules[j])
    ensures FieldsCheck(modules) == Some(BadModule(modules[i].name))
  {
    hide ValidModule;
    if i > 0 {
      assert forall j | 0 <= j < i - 1 :: modules[1..][j] == modules[j + 1];
      FirstBadModule(modules[1..], i - 1);
    }
  }

  lemma {:induction false} FirstBadPolicy(policies: seq<PolicySpec>, i: nat)
    requires i < |policies| && !ValidPolicy(policies[i]) && forall j | 0 <= j < i :: ValidPolicy(policies[j])
    ensures PoliciesCheck(policies) == Some(BadPolicy(policies[i].name))
  {
    hide ValidPolicy;
    if i > 0 {
      assert forall j | 0 <= j < i - 1 :: policies[1..][j] == policies[j + 1];
      FirstBadPolicy(policies[1..], i - 1);
    }
  }

  /** An enabled, templated module of unknown type, or without the configuration of its type. */
  predicate Unrenderable(m: ModuleConfig) {
    m.enabled && m.rawConfig == "" && !(KnownType(m.moduleType) && ConfigPresent(m))
  }

  lemma {:induction false} FirstUnrenderable(modules: seq<ModuleConfig>, i: nat)
    requires i < |modules| && Unrenderable(modules[i]) && forall j | 0 <= j < i :: !Unrenderable(modules[j])
    ensures ModulesCheck(modules) ==
            Some(if KnownType(modules[i].moduleType) then MissingConfig(modules[i].name)
                 else UnknownModuleType(modules[i].moduleType))
  {
    hide KnownType, ConfigPresent;
    if i > 0 {
      assert !Unrenderable(modules[0]);
      assert forall j | 0 <= j < i - 1 :: modules[1..][j] == modules[j + 1];
      FirstUnrenderable(modules[1..], i - 1);
    }
  }

  lemma {:induction false} FirstUnknownKind(actions: seq<PolicyAction>, k: nat)
    requires k < |actions| && actions[k].kind !in ACTION_KINDS &&
             forall j | 0 <= j < k :: actions[j].kind in ACTION_KINDS
    ensures ActionsCheck(actions) == Some(InvalidAction(actions[k].kind))
  {
    if k > 0 {
      assert forall j | 0 <= j < k - 1 :: actions[1..][j] == actions[j + 1];
      FirstUnknownKind(actions[1..], k - 1);
    }
  }

  /** The first policy with an unknown stage or action kind decides; in it the stage comes first, and
      then the first of its actions. */
  lemma {:induction false} FirstUnknownPolicy(policies: seq<PolicySpec>, i: nat)
    requires i < |policies| && KnownPolicies(policies[..i])
    ensures policies[i].stage !in STAGES ==> SitesCheck(policies) == Some(InvalidStage(policies[i].stage))
    ensures forall k: nat | policies[i].stage in STAGES && k < |policies[i].actions| &&
                            policies[i].actions[k].kind !in ACTION_KINDS && KnownKinds(policies[i].actions[..k]) ::
              SitesCheck(policies) == Some(InvalidAction(policies[i].actions[k].kind))
  {
    if i > 0 {
      assert policies[..i][0] == policies[0] && policies[0] in policies[..i];
      assert policies[1..][..i - 1] == policies[..i][1..];
      ActionsCheckPasses(policies[0].actions);
      FirstUnknownPolicy(policies[1..], i - 1);
    } else {
      var actions := policies[0].actions;
      forall k: nat | k < |actions| && actions[k].kind !in ACTION_KINDS && KnownKinds(actions[..k])
        ensures ActionsCheck(actions) == Some(InvalidAction(actions[k].kind))
      {
        assert forall j | 0 <= j < k :: actions[..k][j] == actions[j];
        FirstUnknownKind(actions, k);
      }
    }
  }

  /** The order of the parts: clients, fields of modules, policies, types of modules, stages and kinds. */
  lemma PartsInOrder(ctx: Context, e: RenderError)
    requires RenderCheck(ctx) == Some(e)
    ensures e.BadClient? <==> exists c :: c in ctx.clients && !ValidClient(c)
    ensures !e.BadClient? ==>
              (e.BadModule? <==> exists m :: m in ctx.modules && m.enabled && !ValidModule(m))
    ensures !e.BadClient? && !e.BadModule? ==> (e.BadPolicy? <==> exists p :: p in ctx.policies && !ValidPolicy(p))
    ensures !e.BadClient? && !e.BadModule? && !e.BadPolicy? ==>
              (e.UnknownModuleType? || e.MissingConfig? <==> exists m :: m in ctx.modules && Unrenderable(m))
  {
    RenderingMeaning.EarlyErrors(ctx);
    RenderingMeaning.ModulesErrors(ctx.modules);
    RenderingMeaning.ClientsCheckPasses(ctx.clients);
    RenderingMeaning.FieldsCheckPasses(ctx.modules);
    RenderingMeaning.PoliciesCheckPasses(ctx.policies);
    ModulesCheckPasses(ctx.modules);
    hide ClientsCheck, FieldsCheck, PoliciesCheck, ModulesCheck, SitesCheck, ValidClient, ValidModule, ValidPolicy;
    hide KnownType, ConfigPresent;
  }
}
