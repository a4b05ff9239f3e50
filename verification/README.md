# Verification of the FreeRADIUS operator

This project models the operator's two cores and proves what each of them promises.

**The compiler.** `RadiusPolicy` and `RadiusClient` specs become FreeRADIUS text. `Conditions`,
`Sites` and `Clients` print it as the Go code and its templates do; `Conditions`, `Unlang` and
`Clients` also hold parsers of that text, and `ConditionMeaning`, `SiteMeaning` and `ClientMeaning`
show that reading back what was printed gives the specs, exactly under which conditions, and that
running the text does what the specs say; `RawPolicies` and `RawClients` say where raw text ends up,
and what it does where it can be read. `Sanitize` and `Slices` are the validators. `FileRefs` is
the loop of the init container that replaces `${file:...}` references by file contents; `RefOutcomes`
says exactly with what result it ends and `RefExpansion` exactly when it ends at all. `ClientSecrets`
and `ClientOutcomes` apply both to the printed clients, and `ClientViews` compares the init
container's view of the clients with the controller's and applies the results to it. `ModuleTexts` are
the module templates and `ModuleMeaning` reads them back. `Rendering` and `RenderingMeaning` put the
files together, `RenderErrors` says which error is reported if that fails, and `Flattening` follows the
files through the keys of a ConfigMap into the pod.

**The reconcile state machine.** `ApiServers` is the object store behind calls that may fail, before
or after they take effect. `Clusters` says which operations a pass makes for a cluster;
`ClusterPasses` makes them, call by call, as the reconciler does. `Convergence` shows what passes do
over time however many calls fail, `Ownership` that names keep clusters apart, `Interleaving` and
`InterleavedPasses` what happens when passes of many clusters are interleaved call by call, and
`Routing`, `Workloads` and `Leftovers` what holds once a pass reports success. `Secrets` and
`ConfigHash` are the parts of a pass that collect Secrets and hash the configuration;
`SecretReferences` ties the collected Secrets to the references in the printed texts, and
`HashCollisions` shows what the hash cannot tell apart. `Statuses`, `ClusterReconciles` and
`ReadyReconciles` are the reconciles of clusters, policies and clients with their conditions.

**Both together.** `Configurations` says what a completed reconcile of a cluster leaves in its ConfigMap
and its Deployments, in terms of the objects that were read, and exactly what stops one.

`Wrappers`, `Text`, `Specs` and `Objects` hold shared types and string lemmas.

Findings. Each is stated as a failing case, as the exact condition under which the code does what is
expected of it, or both:

- The regular-expression validator accepts an unescaped `/` and a trailing backslash; a condition is
  read back as written exactly when neither occurs (`ConditionMeaning.ConditionRoundTrip`,
  `ConditionMeaning.UnescapedSlashIsMisread`).
- A `call` of a module named like a keyword or return code of the policy language, such as `ok` or
  `return`, is not read back as a call (`SiteMeaning.ActionRoundTrip`, `SiteMeaning.ModuleNamedOk`).
- A Secret of several lines passes every check; once every secret is in place and none holds a marker,
  clients.conf says what it should exactly when every trimmed secret is one line
  (`ClientSecrets.ResolvedFileParses`, `ClientSecrets.TwoLineSecretIsMisread`).
- The loop that resolves `${file:...}` ends with every secret in place exactly when no secret holds a
  marker, or the first that does names a path there that cannot be read and all later clients keep
  their references anyway (`ClientOutcomes.SecretsInPlaceExactly`).
- It need not end: where the secrets, and the files that they refer to, hold markers only as whole
  references, it goes on forever exactly if expanding them from the left comes back to a reference that
  it is inside of (`ClientOutcomes.ClientLoopEndsExactly`, `ClientOutcomes.SelfReferringSecretNeverEnds`).
- A module's text refers to its own password only, exactly unless the URL of a REST module holds
  another reference; the URL check allows one (`SecretReferences.ModuleMarkersExactly`,
  `SecretReferences.URIMayReferElsewhere`).
- The hashed stream has no separators: equal streams mean equal configurations exactly when their
  parts have equal lengths, and Render makes configurations that hash alike
  (`ConfigHash.StreamDetermines`, `HashCollisions.RenderedStreamsCollide`).
- A pass may report success and leave both modes, or an autoscaler that should be gone: where an
  object is to be removed, a read that fails is taken for "not there"
  (`Routing.OneModeExactly`, `Routing.RoutedExactly`, `Routing.ReplicasExactly`,
  `MissedReads.MissedReadKeepsBothModes`).
- A file path comes back from its ConfigMap key exactly when it holds neither `__` nor `_/`
  (`Flattening.FlattenRoundTrip`, `RenderingMeaning.FilesReachThePod`).
- A pass never removes the objects of a role that a split cluster no longer configures, nor the
  autoscalers of the other mode: after a success there are only objects of configured endpoints exactly
  if none of these was there and no failed read hid a stale one (`Leftovers.NoLeftoversExactly`,
  `Leftovers.DroppedRoleStays`).
- The policy controller refuses `redundant` and `load-balance`, which the renderer takes, and does not
  check fields, which the renderer does: ready policies pass its field checks exactly if they are valid
  (`ReadyReconciles.ReadyExactly`, `ReadyReconciles.ReadyPoliciesRender`,
  `ReadyReconciles.ReadyPolicyIsRefused`).
- With working status writes one of its reconciles leaves Ready and Invalid opposite exactly unless its
  second read fails while the second condition is not False (`ReadyReconciles.OppositeExactly`).
- The CoA port that is rendered and the one that Services open agree exactly if `coa` and the endpoints
  agree on whether there is one and the configured port is not negative; a split cluster can open the
  port with CoA off (`ClusterReconciles.CoAPortsAgreeExactly`, `ClusterReconciles.PortWithoutListener`).
- The init container drops the raw text of clients, and prints their other fields, which the controller
  does not check then: what it prints is valid exactly if those fields are
  (`ClientViews.ViewsAgreeExactly`, `ClientViews.ProjectedValidExactly`, `ClientViews.RawFieldsAreMisread`).

## Model

| member | source | states |
|---|---|---|
| `Conditions.JoinLeaves` | internal/renderer/sites.go:98-115 | the loop over an array of wrapped leaves yields the joined text: one leaf bare, several in brackets, regular expressions between slashes, negation per leaf |
| `Conditions.BuildCondition` | internal/renderer/sites.go:72-96 | the printed condition of a match: no match or no leaves is `true`, empty groups are left out, groups are joined by `&&` |
| `ConditionMeaning.TreeMeaning` | internal/renderer/sites.go:72-96 | for every valuation of leaves, the tree of a match holds iff all of All, some of Any (or Any is empty) and none of None hold |
| `ConditionMeaning.ConditionRoundTrip` | internal/renderer/sites.go:72-115 | under either relative precedence of `&&` and `||`, the printed condition of a validated match is read back as its tree iff all its regular expressions are closed, and the tree means the match |
| `ConditionMeaning.UnescapedSlashIsMisread` | internal/renderer/sanitize.go:258-269 | a concrete match that passes validation and whose text is not read back as it was written |
| `Slices.Append` | internal/renderer/sanitize.go:276 | Go's append on a window of an array: in place if the capacity allows, else into a fresh array; writes nothing but the spare capacity |
| `Slices.BuildLeaves` | internal/controller/radiuscluster_controller.go:877-888 | leaves appended one at a time end up in a fresh array with exactly the given contents |
| `Slices.ValidateMatch` | internal/renderer/sanitize.go:271-288 | the walk over the nested append finds the first invalid leaf of All, Any, None in this order, and all three lists read the same afterwards, unless Any or None lie in the spare capacity of All |
| `Slices.ConvertAndValidate` | internal/renderer/sanitize.go:271-288 | on every match that the controller builds the walk accepts exactly the valid matches |
| `Sites.RenderGroupAction` | internal/renderer/templates.go:72-80 | the loop that writes a group action yields its text |
| `Sites.CheckSites` | internal/renderer/sites.go:34-45 | the nested loops report the first unknown stage or action kind |
| `Sites.SitesCheckPasses` | internal/renderer/sites.go:34-45 | the check passes iff all stages and action kinds are known, raw policies included |
| `Sites.GroupByStage` | internal/renderer/sites.go:47-50 | after the loop each stage holds its policies in input order |
| `Sites.SortByPriority` | internal/renderer/sites.go:52-54 | a permutation in ascending priority |
| `Sites.SortStages` | internal/renderer/sites.go:51-55 | every stage is sorted and keeps its policies, in whatever order stages are visited |
| `Sites.RenderSites` | internal/renderer/sites.go:33-70 | fails exactly with the first check error, else prints some arrangement: each stage its own policies in ascending priority |
| `Sites.StagesPartition` | internal/renderer/sites.go:47-60 | the printed stages partition the policies as a multiset, each under its own stage |
| `Sites.OrderOfInputIrrelevant` | internal/renderer/sites.go:47-60 | with distinct priorities per stage, any permutation of the input and any sorting algorithm print the same file |
| `Sites.EqualPrioritiesUnordered` | internal/renderer/sites.go:51-55 | two policies of equal priority may be printed in either order |
| `SiteMeaning.ActionRoundTrip` | internal/renderer/templates.go:55-80 | the text of a validated action is read back as that action iff no module it names is a keyword or return code of the policy language |
| `SiteMeaning.SameEffect` | internal/renderer/templates.go:55-70 | the statement that an action is printed as does to a request what the action is to do |
| `SiteMeaning.ModuleNamedOk` | internal/renderer/templates.go:55-64 | calls of modules named `ok` and `reject` print the text of accept and reject |
| `SiteMeaning.SitesRoundTrip` | internal/renderer/templates/sites-enabled/default.tmpl:1-23 | for templated policies and raw ones whose text can be read: the whole file is read back as the compiled servers, stages, guards and actions, with what each raw text is read as in its policy's place, iff every templated policy is readable |
| `SiteMeaning.CompilerCorrect` | internal/renderer/sites.go:33-70 | for any printed arrangement of such policies: read back iff all of them are readable, and any request through any stage of the file fares as under the policies of that stage in ascending priority, each templated one guarded by its match, each raw one as its text is read |
| `RawPolicies.RawTextStands` | internal/renderer/templates/sites-enabled/default.tmpl:5-11 | any raw text at all stands in the file unchanged, on a line of its own, in a place that does not depend on it: in the section of its policy's stage, right at its top for the first policy |
| `RawPolicies.PlaceInStage` | internal/renderer/templates/sites-enabled/default.tmpl:5-11 | a readable text in that place is read behind what the policies before it say and in front of what those after it say |
| `RawPolicies.ReadsUnique` | internal/renderer/templates/sites-enabled/default.tmpl:6 | a text can be read in one way only |
| `RawPolicies.WordReads` | internal/renderer/templates/sites-enabled/default.tmpl:6 | a raw text of one word is read as the statement that the word is |
| `RawPolicies.LinesRead` | internal/renderer/templates/sites-enabled/default.tmpl:6 | readable texts can be read line after line |
| `RawPolicies.RawRejectRejects` | internal/renderer/templates/sites-enabled/default.tmpl:6 | a raw policy `reject` rejects every request that comes as far as it |
| `FileRefs.FindFirstRef` | cmd/operator/render_clients.go:53-60 | what is found is a marker before which none occurs, up to the first brace after it; nothing is found iff no marker is followed by a brace |
| `FileRefs.ResolveFirst` | cmd/operator/render_clients.go:61-69 | one turn splices the trimmed content in for that reference and leaves all text before and behind it, or stops if the file cannot be read or there is no reference |
| `FileRefs.TrimExactly` | cmd/operator/render_clients.go:68 | the trimmed text is the one text that is left between outer white space and starts and ends with none |
| `FileRefs.SpacesAre` | cmd/operator/render_clients.go:68 | blanks, tabs and line ends are white space and no character from `!` to `~` is |
| `FileRefs.ReplaceHitsFirst` | cmd/operator/render_clients.go:69 | replacing the first occurrence of the reference's text hits exactly the reference that was found |
| `FileRefs.LoopIsOnePass` | cmd/operator/render_clients.go:51-72 | if the one-pass result holds no marker, the loop ends after exactly one turn per reference with that result |
| `RefOutcomes.LoopIsOnePassExactly` | cmd/operator/render_clients.go:51-72 | whatever the files, the loop ends with the one-pass result iff no value brings a marker, or the reference that the first one begins cannot be read and what is left is its own substitution |
| `FileRefs.LoopStopsAtUnreadable` | cmd/operator/render_clients.go:63-67 | at an unreadable file everything before is resolved and everything from it on is untouched |
| `FileRefs.SelfReferenceNeverEnds` | cmd/operator/render_clients.go:51-72 | once the loop meets a reference to a file that contains that reference, it goes on forever, whatever stands around it |
| `FileRefs.ResolveFileRefs` | cmd/operator/render_clients.go:51-72 | on every content on which the loop ends, it returns the result with which it ends |
| `FileRefs.OneResult` | cmd/operator/render_clients.go:51-72 | the loop has one result and one number of turns at most, and its result is at rest |
| `RefExpansion.HaltsExactly` | cmd/operator/render_clients.go:51-72 | expanding references from the left halts iff it does not come back, before the first unreadable one, to a reference that it is inside of |
| `RefExpansion.TerminatesExactly` | cmd/operator/render_clients.go:51-72 | where the files that are reached hold markers only as whole references, whatever else there is, the loop ends on a text iff that expansion of it halts |
| `Clients.SelectClients` | cmd/operator/render_clients.go:21-32 | the filtering loop yields the clients of the cluster in order, without their raw text |
| `Clients.RenderClientsToFile` | cmd/operator/render_clients.go:15-48 | the written content is what resolving the print of the selected clients ends with |
| `ClientMeaning.FileParses` | internal/renderer/templates/core/clients.conf.tmpl:1-23 | parsing the file gives the two local clients and exactly the given ones in order, with name, address, secret and type, and `ipv6addr` iff the address holds a colon, iff every secret is one line |
| `RawClients.FileWithRawParses` | internal/renderer/templates/core/clients.conf.tmpl:16-23 | with raw clients whose text can be read among them: parsing gives the local clients and then, in order, each templated client and what each raw text names, iff the secret of every templated one is one line |
| `RawClients.BlockReads` | internal/renderer/templates/core/clients.conf.tmpl:17-21 | raw text that is a block of the template's form is read as its row |
| `RawClients.RawClientStands` | internal/renderer/templates/core/clients.conf.tmpl:16 | any raw text at all stands in the file unchanged, in a place that does not depend on it |
| `ClientSecrets.RenderedFileParses` | internal/renderer/clients.go:5-11 | before resolution each client's secret is the reference to the path at which it is mounted, spelled out |
| `ClientSecrets.SecretsInPlace` | cmd/operator/render_clients.go:35-42 | if no secret is unreadable or holds a marker, the loop takes one turn per client and puts every secret in place |
| `ClientOutcomes.SecretsInPlaceExactly` | cmd/operator/render_clients.go:51-72 | whatever the files, the loop ends with every secret in place iff no secret holds a marker, or the first that does names a path there that cannot be read and all later clients keep their references |
| `ClientOutcomes.BlocksKept` | internal/renderer/templates/core/clients.conf.tmpl:16-23 | the printed blocks equal their substitution iff every client keeps its reference |
| `ClientOutcomes.ClientLoopEndsExactly` | cmd/operator/render_clients.go:51-72 | for such secrets the loop ends on the printed clients iff expanding the secrets from the left does not circle |
| `ClientOutcomes.SelfReferringSecretNeverEnds` | cmd/operator/render_clients.go:51-72 | a client whose secret is a reference to itself, after clients whose secrets are in order, keeps the loop going forever |
| `ClientSecrets.CleanExactly` | internal/renderer/templates/core/clients.conf.tmpl:16-21 | the template separates references from their surroundings: the resolved file holds a marker iff some secret does |
| `ClientSecrets.ResolvedFileParses` | cmd/operator/render_clients.go:35-42 | printed, resolved and read back, the file gives the same clients in the same order iff every trimmed secret is one line, each secret the content of its file between its outer white space |
| `ClientSecrets.TwoLineSecretIsMisread` | internal/renderer/templates/core/clients.conf.tmpl:19 | a concrete two-line secret that is put in place and then misread |
| `ClientSecrets.ResolvedRow` | cmd/operator/render_clients.go:68-69 | each with its own fields, and the content of its secret without the white space around it |
| `ClientViews.ViewsAlign` | cmd/operator/render_clients.go:21-32 | the init container lists the controller's clients in the same order, without raw text |
| `ClientViews.ViewsAgreeExactly` | internal/controller/radiuscluster_controller.go:863-872 | both views are equal iff no client of the cluster is raw |
| `ClientViews.ProjectedValidExactly` | cmd/operator/render_clients.go:26-34 | if the controller's check passes, what the init container prints without one is valid iff the unused fields of every raw client are |
| `ClientViews.WrittenFile` | cmd/operator/render_clients.go:34-44 | for the clients that are there, the written file has every secret in place iff the secrets settle, and then lists the clients iff every secret is one line |
| `ClientViews.InitContainerEndsExactly` | cmd/operator/render_clients.go:34-42 | and the init container ends at all iff expanding the secrets does not circle |
| `ClientViews.RawFieldsAreMisread` | cmd/operator/render_clients.go:26-34 | a concrete raw client that the controller accepts and whose block in the init container's file is not read back |
| `Rendering.RenderModule` | internal/renderer/modules.go:51-76 | raw text as it is, a block for plain types, the template of the type if its configuration is there, else the missing-config error; no template runs without its configuration |
| `Rendering.AddFiles` | internal/renderer/modules.go:31-46 | adds the module's file and its non-empty data files and keeps all others |
| `Rendering.RenderModules` | internal/renderer/modules.go:23-49 | fails exactly with the first module error, else yields the merged files, later modules winning |
| `ModuleMeaning.ModuleReads` | internal/renderer/modules.go:51-76 | the text of an enabled, validated module is read back as its type, its name and the fields of its configuration, each under its own key and in its own block; a raw module's text is its raw text |
| `ModuleMeaning.DecimalReads` | internal/renderer/templates/mods-enabled/sql.tmpl:1-12 | numbers are printed as their digits, behind a sign if negative |
| `Rendering.Validate` | internal/renderer/renderer.go:197-214 | the first failing client, then enabled module, then policy |
| `Rendering.Render` | internal/renderer/renderer.go:196-244 | fails exactly with the first error in the order of its checks, else yields the files with some arrangement of the policies |
| `RenderErrors.PartsInOrder` | internal/renderer/renderer.go:197-240 | which kind of error is reported: a bad client if there is one, else a bad enabled module, else a bad policy, else a module that cannot be rendered, else a stage or action kind |
| `RenderErrors.FirstBadClient` | internal/renderer/renderer.go:197-201 | of bad clients the first is named |
| `RenderErrors.FirstBadModule` | internal/renderer/renderer.go:202-207 | of bad enabled modules the first is named |
| `RenderErrors.FirstBadPolicy` | internal/renderer/renderer.go:208-212 | of bad policies the first is named |
| `RenderErrors.FirstUnrenderable` | internal/renderer/modules.go:25-35 | of modules that cannot be rendered the first decides: an unknown type by its type, a missing configuration by its name |
| `RenderErrors.FirstUnknownPolicy` | internal/renderer/sites.go:34-45 | of policies with an unknown stage or kind the first decides, and in it the stage before the kinds and the first kind |
| `RenderingMeaning.RendersExactly` | internal/renderer/renderer.go:196-244 | rendering succeeds iff all client, module field, policy, stage, action, type and config-present checks hold |
| `RenderingMeaning.InvalidExactly` | internal/controller/radiuscluster_controller.go:947-953 | an error counts as an invalid spec iff all field checks passed and then a module type, stage or action kind is unknown |
| `RenderingMeaning.FilesAre` | internal/renderer/renderer.go:216-243 | the paths that come out are the three core files and those of the enabled modules |
| `RenderingMeaning.NothingOverwritten` | internal/renderer/renderer.go:231-243 | the last enabled module of each name has its own text in its file, and each of its two lists in the file of that list |
| `RenderingMeaning.FilesReachThePod` | internal/controller/radiuscluster_controller.go:426-431 | the init script restores exactly the rendered paths iff no enabled module's name has `__` or `_/`, nor ends in `_` if it brings data files; then all contents are kept |
| `RenderingMeaning.KeysNeverCollide` | internal/controller/radiuscluster_controller.go:204-207 | for module names without `/` no two rendered files share a ConfigMap key |
| `RenderingMeaning.AcceptedFilesAreKept` | internal/controller/radiuscluster_controller.go:204-207 | the ConfigMap of any context that Render accepts holds every file with its content, if no enabled module is raw |
| `Flattening.FlattenRoundTrip` | internal/controller/radiuscluster_controller.go:205-207 | undoing the flattening gives the path back iff it holds neither `__` nor `_/` |
| `Flattening.FlattenInjective` | internal/controller/radiuscluster_controller.go:205-207 | flattening is injective on those paths |
| `Flattening.FlattenFiles` | internal/controller/radiuscluster_controller.go:204-207 | in whatever order the map is read, the data has a key per flattened path with the content of one of its paths |
| `Flattening.PathsReturn` | internal/controller/radiuscluster_controller.go:426-431 | the init script writes exactly the rendered paths iff all of them are such paths |
| `Flattening.ContentsReturn` | internal/controller/radiuscluster_controller.go:426-431 | and then every file has its own content |
| `ApiServers.RunConcat` | internal/controller/radiuscluster_controller.go:129-140 | a list of steps runs as its parts one after the other, up to the first failure |
| `ApiServers.ApiServer.CreateOrUpdate` | internal/controller/radiuscluster_controller.go:198-211 | a read, a refusal if another controller owns the object, and a write only if something differs |
| `ClusterPasses.BuildEndpoints` | internal/controller/radiuscluster_controller.go:236-293 | one endpoint with all ports, or one per configured role |
| `ClusterPasses.BuildPodSpec` | internal/controller/radiuscluster_controller.go:362-543 | the volumes and the mounts of the three containers that read configuration |
| `ClusterPasses.Reconciler.ReconcileRBAC` | internal/controller/radiuscluster_controller.go:665-698 | makes the three RBAC operations in order, up to the first that fails |
| `ClusterPasses.Reconciler.ReconcileConfigMap` | internal/controller/radiuscluster_controller.go:198-211 | applies the flattened files |
| `ClusterPasses.Reconciler.ReconcileOneDeployment` | internal/controller/radiuscluster_controller.go:321-360 | applies the Deployment with the configuration hash, and with replicas only if it is not autoscaled |
| `ClusterPasses.Reconciler.ReconcileOneService` | internal/controller/radiuscluster_controller.go:555-587 | applies the Service, replacing annotations only by non-empty ones |
| `ClusterPasses.Reconciler.ReconcileDeploymentsAndServices` | internal/controller/radiuscluster_controller.go:223-234 | Deployment and Service of each endpoint, then the cleanup |
| `ClusterPasses.Reconciler.RemoveFound` | internal/controller/radiuscluster_controller.go:306-310 | deletes what a read finds; a read that fails counts as finding nothing |
| `ClusterPasses.Reconciler.CleanupStaleResources` | internal/controller/radiuscluster_controller.go:295-319 | removes Deployment and Service of every suffix of the other mode |
| `ClusterPasses.Reconciler.ReconcileOneHPA` | internal/controller/radiuscluster_controller.go:599-632 | applies the autoscaler, or removes it if autoscaling is off |
| `ClusterPasses.Reconciler.ReconcileHPAs` | internal/controller/radiuscluster_controller.go:589-597 | does so for every endpoint |
| `ClusterPasses.Reconciler.ReconcilePDB` | internal/controller/radiuscluster_controller.go:634-663 | applies the budget, or removes it if none is configured and there is one replica |
| `ClusterPasses.Reconciler.ReconcileResources` | internal/controller/radiuscluster_controller.go:129-140 | the calls of a pass, whatever fails, are exactly a run of the pass's operations |
| `ClusterPasses.StepsOf` | internal/controller/radiuscluster_controller.go:129-140 | a pass is its five steps, each reached only if the one before succeeded |
| `Convergence.FailedPassLeavesNoTrace` | internal/controller/radiuscluster_controller.go:129-140 | whatever fails in a pass, one in which nothing fails leaves the store it would have left without it |
| `Convergence.Converges` | internal/controller/radiuscluster_controller.go:129-140 | any number of passes that fail anywhere, then a complete one, equal the complete one alone |
| `Convergence.PassTwice` | internal/controller/radiuscluster_controller.go:129-140 | two complete passes equal one |
| `Convergence.PassesCommute` | internal/controller/radiuscluster_controller.go:129-140 | passes over disjoint objects commute |
| `Convergence.DeadPass` | internal/controller/radiuscluster_controller.go:129-140 | calls that all fail change nothing, so dying is failing from then on |
| `Convergence.SuccessLeaves` | internal/controller/radiuscluster_controller.go:295-319 | after a success every applied object is as wanted, and a removed one is gone unless the read of it failed, and then as it was |
| `Convergence.ForeignKept` | internal/controller/radiuscluster_controller.go:198-203 | an object that another controller owns is never changed by an operation that would apply it, and then the pass does not report success |
| `Convergence.SuccessSettles` | internal/controller/radiuscluster_controller.go:129-140 | a success that missed no object leaves every object as it is wanted |
| `Convergence.SettledPassIsQuiet` | internal/controller/radiuscluster_controller.go:129-140 | a pass over objects that are as wanted reads each of them once and writes nothing |
| `Convergence.OthersUntouched` | internal/controller/radiuscluster_controller.go:129-140 | a pass leaves all objects alone that it has no operation for |
| `Ownership.NameDetermines` | internal/controller/constants.go:3-12 | an object's name determines the cluster and the suffix it was built from |
| `Ownership.BelongsToOne` | internal/controller/constants.go:3-12 | a key belongs to at most one cluster |
| `Ownership.PassKeys` | internal/controller/radiuscluster_controller.go:129-140 | a pass touches no object twice and only objects that belong to its cluster |
| `Ownership.SuffixesOfMode` | internal/controller/radiuscluster_controller.go:295-301 | the suffixes of a mode's endpoints and the stale suffixes never meet |
| `Interleaving.AdvanceOwn` | internal/controller/radiuscluster_controller.go:303-317 | no step of a cluster's worker changes an object that does not belong to it |
| `Interleaving.NonInterference` | internal/controller/radiuscluster_controller.go:129-140 | in every call-by-call interleaving a cluster's worker and objects are what its own events alone make of them |
| `Interleaving.TidyStep` | internal/controller/radiuscluster_controller.go:198-203 | every step keeps all objects owned by their cluster and labelled for their role |
| `Interleaving.NeverBlocked` | internal/controller/radiuscluster_controller.go:198-203 | from an empty store, in every run, no pass ever meets an object of another owner |
| `InterleavedPasses.CallsArePass` | internal/controller/radiuscluster_controller.go:129-140 | a worker that comes to rest has done what the pass does at once |
| `InterleavedPasses.DeathIsFailure` | internal/controller/radiuscluster_controller.go:129-140 | a worker that dies after some calls has done what a pass does whose later calls fail |
| `InterleavedPasses.ComesToRest` | internal/controller/radiuscluster_controller.go:129-140 | every operation takes at most two calls |
| `InterleavedPasses.InterleavedConvergence` | internal/controller/radiuscluster_controller.go:129-140 | amid any other clusters: any number of passes that die anywhere, then a complete one, leave a cluster's objects as that last pass alone would |
| `InterleavedPasses.LastPassDecides` | internal/controller/radiuscluster_controller.go:129-140 | amid any other clusters, a cluster's objects are what its last pass makes of what its own history left |
| `Routing.PassesAreOwn` | internal/controller/radiuscluster_controller.go:129-140 | every pass of the reconciler is one that the interleaving machine lets its cluster run |
| `Routing.OneModeExactly` | internal/controller/radiuscluster_controller.go:295-319 | after a success no Deployment or Service of the other mode is left iff no failed read hid one |
| `Routing.SelectsExactly` | internal/controller/radiuscluster_controller.go:748-762 | a cluster and role's selector matches another's labels iff the cluster is the same and the role is equal or empty |
| `Routing.SelectedBy` | internal/controller/radiuscluster_controller.go:567-571 | in a tidy store pods of a role are selected by the Service of that role, the unified one if there is one, and no other of any cluster |
| `Routing.RoutedExactly` | internal/controller/radiuscluster_controller.go:223-319 | after a success every endpoint's pods are selected by its own Service, which is there, and by no other iff no failed read hid the unified Service of a split cluster |
| `Routing.ReplicasExactly` | internal/controller/radiuscluster_controller.go:350-356 | after a success either the autoscaler or max(1, configured) decides an endpoint's replicas, never both nor neither, iff no failed read hid an autoscaler to be removed |
| `Routing.ReferencesResolve` | internal/controller/radiuscluster_controller.go:362-371 | after a success accounts, roles and ConfigMaps that objects refer to by name are there, and a budget covers every endpoint's pods |
| `Workloads.WorkloadsAsWanted` | internal/controller/radiuscluster_controller.go:223-360 | after a success, from the spec field by field: image, account, container and Service ports, labels and selectors, configuration hash, replicas, Service type, address, traffic policy and annotations, and the bounds and target of autoscalers, per role from that role's own section; the budget's values; and the ConfigMap's data |
| `Workloads.OtherModeGone` | internal/controller/radiuscluster_controller.go:295-319 | after a success no Deployment or Service under a name of the other mode is left, unless the read of it failed |
| `Workloads.HashRolls` | internal/controller/radiuscluster_controller.go:331-346 | successes with different hashes leave different pod templates in every Deployment of the cluster, and with equal hashes the same hash |
| `Routing.ClustersCommute` | internal/controller/radiuscluster_controller.go:129-140 | passes of different clusters commute |
| `Routing.SettledInAnyInterleaving` | internal/controller/radiuscluster_controller.go:223-360 | from an empty store through any interleaving, edits and deaths: a last pass that succeeds and misses nothing leaves one mode, exclusive routing and one owner of replicas |
| `Leftovers.NoLeftoversExactly` | internal/controller/radiuscluster_controller.go:295-319 | after a success only configured endpoints have objects iff no failed read hid a stale one and none was there that no pass looks for |
| `Leftovers.DroppedRoleStays` | internal/controller/radiuscluster_controller.go:295-301 | a split cluster that drops its CoA role keeps that role's Deployment and Service as they were |
| `MissedReads.MissedReadKeepsBothModes` | internal/controller/radiuscluster_controller.go:311-315 | a concrete cluster and one failed read: the pass reports success and the old Service is still there |
| `Secrets.Collector.Add` | internal/controller/radiuscluster_controller.go:768-774 | adds a reference unless it is unnamed or its Secret has been seen |
| `Secrets.CollectSecretRefs` | internal/controller/radiuscluster_controller.go:764-800 | the first reference to each named Secret of TLS, enabled modules and clients, in order |
| `Secrets.FirstOfEachIs` | internal/controller/radiuscluster_controller.go:764-774 | every named Secret exactly once, by the reference that named it first, and no other |
| `Secrets.MountedExactly` | internal/controller/radiuscluster_controller.go:375-383 | a Secret has a volume and a mount in all three containers iff it is among the references |
| `Secrets.PrintedRefsAreMounted` | internal/controller/radiuscluster_controller.go:417-486 | a reference that an enabled templated module or client prints points into a mounted directory iff it names a Secret |
| `SecretReferences.PiecesPrintRefs` | internal/renderer/templates/mods-enabled/sql.tmpl:8 | the templates of all types print exactly these references |
| `SecretReferences.ModuleMarkersExactly` | internal/renderer/modules.go:51-76 | every marker in the text of a validated templated module begins a reference to its own password, iff this holds of a REST module's URL |
| `SecretReferences.URIMayReferElsewhere` | internal/renderer/sanitize.go:15 | a URL that passes its check and holds another reference |
| `SecretReferences.OwnReferencesAreMounted` | internal/controller/radiuscluster_controller.go:375-383 | where a marker begins such a reference its Secret is mounted in the directory it points into, iff it names one |
| `SecretReferences.ClientMarkersAreReferences` | internal/renderer/templates/core/clients.conf.tmpl:16-23 | every marker in clients.conf begins a reference to the secret of one of its clients |
| `Secrets.VolumesDistinct` | internal/controller/radiuscluster_controller.go:368-383 | no two volumes of a pod have one name |
| `ConfigHash.Total` | internal/controller/radiuscluster_controller.go:721 | the order of strings is total and strict |
| `ConfigHash.AscendingUnique` | internal/controller/radiuscluster_controller.go:721 | a finite set has one ascending enumeration |
| `ConfigHash.ComputeConfigHash` | internal/controller/radiuscluster_controller.go:714-736 | whatever order the map is read in, the hash is the digest of the files in ascending order of paths and then of the clients |
| `ConfigHash.SortingForgetsOrder` | internal/controller/radiuscluster_controller.go:717-721 | every enumeration of the file map's keys is sorted into the same sequence |
| `ConfigHash.StreamDetermines` | internal/controller/radiuscluster_controller.go:722-733 | equal streams mean equal files and equal hashed clients iff paths, contents and client fields have equal lengths one by one |
| `HashCollisions.RenderedStreamsCollide` | internal/controller/radiuscluster_controller.go:722-725 | for any context and names: two raw modules that Render takes and that give different files with one stream |
| `Statuses.SetUnique` | internal/status/reporter.go:28-36 | no condition type ever appears twice |
| `Statuses.SetFinds` | internal/status/reporter.go:28-36 | a transition time moves iff the condition is new or flips, and other conditions stay as they are |
| `Statuses.Copy.SetCondition` | internal/status/reporter.go:28-36 | updates the condition in place or appends it |
| `Statuses.Server.Report` | internal/status/reporter.go:46-63 | sets one condition on the copy and writes it back, if the write works |
| `ClusterReconciles.BuildRenderContext` | internal/controller/radiuscluster_controller.go:802-909 | clients with their raw text, policies and modules in order, and the CoA port with its default; what becomes of them, `Configurations.CompletedConfigures` says |
| `ClusterReconciles.CoAPortsAgreeExactly` | internal/controller/radiuscluster_controller.go:237-289 | the rendered CoA port is the one and only port opened for CoA iff `coa` and the endpoints agree on whether there is one and it is not configured negative |
| `ClusterReconciles.PortWithoutListener` | internal/controller/radiuscluster_controller.go:281-289 | a split cluster with a CoA endpoint and no `coa` section opens port 3799 while CoA is rendered off |
| `ClusterReconciles.Reconcile.CheckSecrets` | internal/controller/radiuscluster_controller.go:98-111 | stops at the first Secret that is missing or cannot be read, and says which of both; all before it were read and are there |
| `ClusterReconciles.Reconcile.Run` | internal/controller/radiuscluster_controller.go:60-168 | whatever fails: a reconcile that stops before its steps leaves all objects alone, else it runs a pass over a rendering of what it read, with its hash; when every call works it ends in MissingSecret, InvalidSpec, another rendering error or its steps, each exactly when it should; and the conditions it leaves |
| `ClusterReconciles.OneOfFour` | internal/controller/radiuscluster_controller.go:99-125 | a reconcile whose calls all work comes to its steps iff no Secret is missing and Render succeeds |
| `Configurations.CompletedConfigures` | internal/controller/radiuscluster_controller.go:60-168 | after a reconcile that takes its steps without a failure the ConfigMap holds, read back: each policy of the cluster as often as it is there, in its stage and in ascending priority, with a CoA server iff `coa` is enabled; the cluster's clients in order, with their references; a file for each enabled module, read back as its configuration, and no other; and every Deployment carries the digest of those files and clients |
| `Configurations.InvalidSpecExactly` | internal/controller/radiuscluster_controller.go:947-953 | from the objects read: the spec is invalid iff all fields are valid and then either a module is of unknown type with all before it in order, or all modules are in order and a policy names an unknown stage or action kind |
| `Configurations.RenderableExactly` | internal/renderer/renderer.go:196-244 | from the objects read: rendering works iff all fields are valid, all modules in order and all stages and kinds known |
| `Configurations.NeededExactly` | internal/controller/radiuscluster_controller.go:764-800 | the Secrets collected are those named by enabled TLS, by an enabled module or by a client of the cluster |
| `Configurations.NeededAreMounted` | internal/controller/radiuscluster_controller.go:375-383 | these are the Secrets that are mounted, and the ones whose absence stops a reconcile |
| `ClusterReconciles.ReconcileAll` | internal/controller/radiuscluster_controller.go:60-168 | any number of reconciles, each with its own reads and failing calls: with working status writes the conditions are the history of their ends and say the last real one with its reason; if the last one finds its cluster and all its calls work, a missing Secret or an invalid spec is reported as that |
| `ClusterReconciles.AtRest` | internal/controller/radiuscluster_controller.go:155-164 | after any history with working status writes Progressing is False iff the last real reconcile completed, then Available is True and Degraded False; a missing Secret or an invalid spec leaves Degraded True; each with its reason |
| `ClusterReconciles.AvailableStays` | internal/controller/radiuscluster_controller.go:155-164 | once Available, a cluster stays so through any failures |
| `ReadyReconciles.Judge.Report` | internal/controller/radiuspolicy_controller.go:57-98 | reports one condition and, if the second read works, the other |
| `ReadyReconciles.Judge.ReconcilePolicy` | internal/controller/radiuspolicy_controller.go:38-102 | the status after a reconcile, whatever reads and writes fail: the verdict on stage, actions and cluster, in full, in half or not at all |
| `ReadyReconciles.Judge.ReconcileClient` | internal/controller/radiusclient_controller.go:29-71 | the status after a reconcile, whatever reads and writes fail: the verdict on the cluster, in full, in half or not at all |
| `ReadyReconciles.UndisturbedJudgement` | internal/controller/radiuspolicy_controller.go:57-98 | with working reads and writes the verdict is reported in full |
| `ReadyReconciles.OppositeExactly` | internal/controller/radiuspolicy_controller.go:91-98 | after one reconcile with working writes Ready and Invalid are opposite and say the verdict iff the second read worked or the second condition was False before |
| `ReadyReconciles.JudgeAll` | internal/controller/radiuspolicy_controller.go:38-102 | any number of reconciles of a policy or client, with reads, writes and second reads failing anywhere: the status is the fold of their outcomes, and as ReadyOppositeInvalid says |
| `ReadyReconciles.ReadyOppositeInvalid` | internal/controller/radiuspolicy_controller.go:57-98 | one undisturbed reconcile after any others, whatever failed in them: Ready and Invalid are both there, once each, opposite, and Ready is its verdict |
| `ReadyReconciles.SameVerdictKeepsTimes` | internal/controller/radiusclient_controller.go:48-67 | judging the same again moves no transition time |
| `ReadyReconciles.ReadyExactly` | internal/controller/radiuspolicy_controller.go:20-27 | a policy is ready iff its cluster is there, the renderer knows its stage and all its action kinds and none of its actions is a group |
| `ReadyReconciles.PolicyJudgedExactly` | internal/controller/radiuspolicy_controller.go:38-102 | an undisturbed reconcile leaves a policy ready, or invalid for the first of stage, action kind and cluster that is wrong |
| `ReadyReconciles.ClientJudgedExactly` | internal/controller/radiusclient_controller.go:29-71 | an undisturbed reconcile leaves a client ready iff its cluster is there, else invalid for that |
| `ReadyReconciles.NeverWrong` | internal/controller/radiuspolicy_controller.go:57-98 | whatever fails, a reconcile leaves each condition as it was or makes it true of the policy |
| `ReadyReconciles.ReadyPoliciesRender` | internal/renderer/renderer.go:208-212 | if all policies of a cluster are ready, the renderer finds no unknown stage or action kind, and its field checks pass iff every policy is valid |
| `ReadyReconciles.ReadyPolicyIsRefused` | internal/renderer/sanitize.go:236-241 | a concrete policy that is ready and with which no configuration renders |

## Left out

- Conditions and sites: the parsers read what these templates print, not all of FreeRADIUS's language;
  which values FreeRADIUS would want quoted, and what its modules do, is abstract.
- SiteMeaning.SitesRoundTrip: raw policies whose text the parsers cannot read; `RawPolicies.RawTextStands` says where it stands.
- SiteMeaning.CompilerCorrect: likewise.
- ClientMeaning.FileParses: clients with raw text, which `RawClients.FileWithRawParses` adds where it can be read and
  `RawClients.RawClientStands` follows where it cannot; Secret names and keys are taken to hold neither `}` nor a
  newline, as the API server grants.
- ClientSecrets.RenderedFileParses: likewise without clients with raw text.
- ModuleMeaning.ModuleReads: Secret names and keys are taken to hold no newline, as the API server grants.
- Configurations.CompletedConfigures: raw texts that the parsers cannot read, and what is said of single modules when
  an enabled one has a name with `/`, which only raw modules can; `RenderingMeaning.FilesReachThePod` covers those names.
- SecretReferences.ModuleMarkersExactly: Secret names and keys are taken to hold no `$`, `"` or `}`, as the API server grants.
- FileRefs.ResolveFileRefs: contents on which the loop never ends are excluded, because the method must
  end; `RefExpansion.TerminatesExactly` and `ClientOutcomes.ClientLoopEndsExactly` say which they are.
- Clients.RenderClientsToFile: excludes the same contents.
- RefExpansion.TerminatesExactly: reached files in which a marker is only completed by the text around it.
- ClientOutcomes.ClientLoopEndsExactly: secrets of that kind.
- ClientViews.InitContainerEndsExactly: secrets of that kind.
- ClientViews.WrittenFile: raw clients whose unused fields are not valid, for which `ClientViews.ProjectedValidExactly` says
  when they are; legal names and keys of Secrets as above.
- Sites.SortByPriority: the library's in-place sort of a slice is modelled on values by what it promises, with an insertion sort.
- Slices.ValidateMatch: lists of which one lies in the spare capacity of another; the controller never builds them.
- Rendering.Render: the text of radiusd.conf is an input.
- ClusterReconciles.BuildRenderContext: the settings of radiusd, which only radiusd.conf prints.
- ClusterReconciles.Reconcile.Run: messages of conditions, numeric status fields, metrics and logging.
- ClusterPasses.BuildPodSpec: security contexts, commands, probes, resources, affinity and the container that copies the stock configuration.
- ClusterPasses.Reconciler.ReconcileRBAC: the rules of the role, which are constant.
- ClusterPasses.Reconciler.ReconcileOneDeployment: the rollout strategy, which is constant, and the same parts of the pod.
- ApiServers.ApiServer.CreateOrUpdate: an object that someone other than a modelled cluster changes between the read and
  the write, and so also a delete that finds the object already gone.
- API-server defaulting, garbage collection and the autoscaler's own loop.
- The shell of the init script that resolves secrets in module files; only its `__` step is modelled.
- Service annotations that were set once are kept by the code when the configuration drops them; the model keeps them too.
- A cluster that is deleted and created anew under the same name counts as the same owner.
- Widths of integers: priorities, replicas and ports are compared, copied and printed, never computed with.
