# Verified model of the Runtrue control plane

A Dafny model of the parts of Runtrue whose correctness depends on long runs, on crashes or on a
whole traversal, with proofs about them. `dafny verify dfyconfig.toml` checks everything.

**Check runs.** `CheckRuns` describes the provider (runs with their annotations), a transport in
which every request can be lost, refused, applied without an answer or answered with any status,
and the create, append, reconcile and resume operations as functions of that world. `Broker` is the
broker as a class that sends one request at a time; its methods are proved equal to those
functions. `CheckRunSafety` proves what every provider state of every run keeps, `CheckRunProgress`
when an operation succeeds and how many requests it sends. `Markdown` is the escaping of public text.

**Build cache and staging.** `BuildCache` describes the action builder's state directory and the
file operations of a request, any prefix of which may happen; `ActionBuilder` performs them.
`Staging` is a state machine of workers in several processes that fill private directories and
race to publish them by renaming.

**The GitHub importer.** `Workflow` holds the source and native workflows, `Expressions` the text
checks, `Lossless` and `Actions` what it means that a value, an environment, a matrix or an action
step is kept, `Compatibility` which workflows are supported and what an import keeps, pins and
grants. `Importer` is the analyzer: a class that pushes findings, counters and lock entries, with
one method per conversion, up to `Import`. `LockTheory` says which entries the lock file has,
`TrustedRuns` what a trusted-target workflow runs, and `Counterexamples` holds accepted workflows
that break an expectation. `PermissionTheory` treats the permission merge as a
join. `Paths` is about normalized paths.

**Catalog and calendar.** `Catalog` and `CatalogTheory` treat the bounded page loop over untrusted
responses, `Calendar` the timestamp parser and its closed-form day count.

**Scanners and encodings.** `StrictYaml` (the budget visitor), `Dockerfile` and `DockerfileGraph`
(the material policy and what its edges can reach), `Templates` (action arguments), `Tail` (bounded
diagnostics), `Envelope` (the secret envelope's associated data), `Materials` (the material digest
and cache id) and `CanonicalJson` (approval material). `Text`, `Ordering`, `Validation` and
`Results` are shared.

Some expectations that one may have of the code do not hold. For these the model has the exact
condition and, where useful, a concrete case:

- At most one run per request holds only while the matching run is on the single page of 100 that
  reconciliation reads; a hidden run is duplicated (`CheckRunProgress.DuplicateExactly`), for one
  behind a hundred others on the commit (`CheckRunProgress.HiddenDuplicated`).
- `annotation_requests` counts chunks, not requests: a publication of at most 50 annotations sends
  two requests and reports one, and a resume with nothing left sends one and reports none
  (`CheckRunProgress.PublishExact`, `CheckRunProgress.ResumeExact`).
- A torn resolution file is never repaired (`BuildCache.TornRefused`); a request leaves one exactly
  when it stops between creating the file and filling it (`BuildCache.TornExactly`). If the first
  read of a resolution can fail although the file is there, the directory stays consistent exactly
  when that resolution is not complete (`BuildCache.UnreadResolution`).
- COPY may name its own stage, so edges between stages can cycle, in that way only
  (`DockerfileGraph.CyclesAreSelfCopies`, `DockerfileGraph.SelfCopyAccepted`).
- The cache permission merge is not a maximum: it keeps the left value of two that are not denied.
  On the values that the importer uses the order does not matter
  (`PermissionTheory.CacheMergeCommutes`, `PermissionTheory.ImporterCacheOrderFree`).
- Component inputs are stored under lower-case names, so of two inputs that differ in case only the
  last counts, without a finding (`Actions.LowerNamedExact`, `Actions.CaseCollides`).
- Container inputs that look like secrets are dropped without a finding. All effective inputs arrive
  exactly when none looks like one without being the token and no secret file has the variable of
  one (`Actions.InputsArriveExactly`); `password: x` is lost (`Counterexamples.SecretLikeDropped`).
- A component has two lock entries exactly when two prepared actions that the workflow runs share it
  and differ in signer or interface (`LockTheory.TwoEntriesExactly`), as with the signers "alice"
  and "bob" (`Counterexamples.TwoSigners`).
- A step of a trusted-target workflow runs a pinned container or component exactly when its
  reference is not that of a built-in action (`TrustedRuns.TrustedStepPinned`). A prepared action
  under a built-in name passes the check and is then the built-in action
  (`Counterexamples.BuiltinNameRuns`); the listing of what to prepare rules such names out
  (`TrustedRuns.ListingMeets`).
- A normalized path is a safe path again unless the first segment that is neither empty nor a dot
  begins with a tilde (`Paths.NormalizedSafe`, `Paths.TildeUncovered`).

## Model

| member | source | states |
|---|---|---|
| `CheckRunSafety.AttemptSafe` | product/server/src/scm_worker.rs:937-955 | Whatever happens to its requests, one reconcile-then-create-or-resume attempt leaves at most one matching run whose annotations are a prefix of the request's, never shrinks it, on success has delivered the whole list once and in order, and on `PartialPublish` has reported the true count or that count less the one failed batch |
| `CheckRunSafety.CampaignSafe` | src/provider/checks.rs:136-362 | Every provider state during any number of attempts, with any fates and other clients in between, holds at most one matching run with a prefix of the annotations, and its count never falls |
| `CheckRunSafety.CampaignDelivers` | src/provider/checks.rs:265-287 | After any such history an attempt that returns Ok has delivered every annotation exactly once, and a reported partial count is the true one or one batch behind |
| `CheckRunSafety.ReconcileExact` | src/provider/checks.rs:177-261 | On a visible history reconciliation changes nothing, is never ambiguous, says none exactly when there is none, and otherwise names the run and its true annotation count |
| `CheckRunSafety.AppendBatchOutcome` | src/provider/checks.rs:335-362 | One update leaves the provider's count at the cursor or moves it to the end of that batch, success means the latter, and no other run changes |
| `CheckRunSafety.AppendBatchesOutcome` | src/provider/checks.rs:289-362 | A sequence of updates ends at some count of at least the cursor, all of the list when it succeeds, and a reported cursor is that count or one batch less |
| `CheckRunSafety.ResumeOutcome` | src/provider/checks.rs:265-287 | A resume adds to the one run it was given, completes it when it succeeds, and touches no other run |
| `CheckRunSafety.PublishOutcome` | src/provider/checks.rs:136-172 | A publication with no matching run creates at most one, keeps all other runs, and completes it when it succeeds |
| `CheckRunProgress.ResumeExact` | src/provider/checks.rs:289-362 | A resume from k of n annotations succeeds exactly when its max(1, ceil((n-k)/50)) updates encode and are accepted, sends exactly those, and its reported count is the number sent exactly when something remained |
| `CheckRunProgress.PublishExact` | src/provider/checks.rs:136-172 | A publication succeeds exactly when the create and all updates encode and are accepted, with max(2, ceil(n/50)) requests, and its reported count is the number sent exactly when n exceeds 50 |
| `CheckRunProgress.AttemptCompletes` | product/server/src/scm_worker.rs:937-955 | From any sound and visible history one attempt whose requests all get through and encode delivers the request |
| `CheckRunProgress.DuplicateExactly` | src/provider/checks.rs:184-226 | When the list is read and the next request is applied, the attempt keeps the run unique exactly if the matching run was on the page |
| `CheckRunProgress.HiddenDuplicated` | src/provider/checks.rs:184-226 | A sound history of 101 runs on the commit, the match last, ends with two matching runs |
| `CheckRunProgress.FewRunsVisible` | src/provider/checks.rs:187-187 | At most 100 runs on the commit make every matching run visible |
| `Broker.GitHubAppBroker.AppendCheckAnnotations` | src/provider/checks.rs:289-362 | The request-by-request loop with its mutable cursor has the effect and result that the theorems are about, and its cursor is what an error reports |
| `Broker.GitHubAppBroker.PublishCheckRun` | src/provider/checks.rs:136-172 | Likewise for a publication |
| `Broker.GitHubAppBroker.ReconcileCheckRun` | src/provider/checks.rs:177-261 | Likewise for the two reads of reconciliation, whose cursor always fits the request |
| `Broker.GitHubAppBroker.ResumeCheckRun` | src/provider/checks.rs:265-287 | Likewise for a resume |
| `Broker.GitHubAppBroker.PublishScmCheck` | product/server/src/scm_worker.rs:937-955 | The worker's publisher keeps the world sound, and an Ok means delivered |
| `Markdown.EscapePublicMarkdown` | src/provider/checks.rs:562-593 | The loop computes the escaping below |
| `Markdown.EscapedIsInert` | src/provider/checks.rs:562-593 | No active character of the result stands without a backslash, and escaping at most doubles the bytes |
| `Markdown.UnescapeEscape` | src/provider/checks.rs:562-593 | Reading the escaped text back gives the original text |
| `BuildCache.ServedConsistent` | product/server/src/action_builder_main.rs:177-348 | Over any requests, crashes and failures between file operations, a complete resolution names an image whose archive is the stored one, and was filled by requests of one kind only; what guarded requests filled or answered was admitted for that archive |
| `BuildCache.HandledConsistent` | product/server/src/action_builder_main.rs:177-348 | The same wherever a single request stops |
| `BuildCache.CompleteIsAdmitted` | product/server/src/action_builder_main.rs:290-347 | From the empty directory, over turns with and without an admitter, the image of every complete resolution was built into the stored archive; one kind of turn for that id filled it, and if that kind has an admitter the image was admitted for the stored archive |
| `BuildCache.GuardedThroughout` | product/server/src/action_builder_main.rs:290-347 | With an admitter configured in every turn for an id, its complete resolution names an image admitted for the stored archive |
| `BuildCache.OkReply` | product/server/src/action_builder_main.rs:213-347 | A successful reply names the recorded image, built into the stored archive and admitted when an admitter is configured |
| `BuildCache.SameImage` | product/server/src/action_builder_main.rs:213-245 | Two successful replies for one cache id name the same image, whatever happens in between |
| `BuildCache.Frozen` | product/server/src/action_builder_main.rs:213-347 | Once an id has a resolution, whole or torn, neither it nor its archive ever changes |
| `BuildCache.TornRefused` | product/server/src/action_builder_main.rs:213-228 | A torn resolution refuses every later request for its id and changes nothing |
| `BuildCache.TornExactly` | product/server/src/action_builder_main.rs:318-347 | A request leaves a torn resolution exactly when it stops between creating the file and filling it |
| `BuildCache.UnreadResolution` | product/server/src/action_builder_main.rs:213-347 | Should the first read of a resolution fail although the file exists, every outcome and stop leaves the directory consistent exactly when the file could be read, is absent or is torn |
| `ActionBuilder.Builder.Handle` | product/server/src/action_builder_main.rs:177-348 | The builder, operation by operation and with a stop anywhere, does what the theorems are about and keeps the directory consistent |
| `ActionBuilder.Builder.Persist` | product/server/src/action_builder_main.rs:290-347 | The archive is stored, then admitted, and only then the resolution is created and filled |
| `Staging.RunKeeps` | product/server/src/repository_action_builder.rs:85-210 | Under any interleaving of workers and process crashes every published directory is the complete materialization of its request, and staging names are never shared |
| `Staging.PublishedForever` | product/server/src/repository_action_builder.rs:85-133 | Once published, a context stays published with the same content |
| `Staging.SuccessMeansPublished` | product/server/src/repository_action_builder.rs:85-133 | A worker that reports success has its own request published, also when another worker won the race |
| `Staging.FileNamesApart` | product/server/src/repository_action_builder.rs:100-112 | Different contexts and staging directories have different file names; no pending directory is found under a context id |
| `Importer.Import` | src/analyzer/mod.rs:151-295 | A workflow is imported exactly when it is supported; then every job and step is kept and counted, images and components are pinned or locked and the lock entries are those of the actions its steps run, steps stay within their jobs, each job has exactly what it declares and its steps ask for, the workflow the maximum of these, and the report's percentage is at least 50 |
| `Importer.Analyzer.Analyze` | src/analyzer/mod.rs:151-231 | The traversal ends without a blocking finding exactly for supported workflows; the workflow's permissions are the fold of the top level's and all jobs' |
| `Importer.Analyzer.ConvertJob` | src/analyzer/jobs.rs:15-243 | A job adds no blocking finding exactly under `JobOk`; then nothing is lost; whatever was found, its steps stay within its permissions and its images are pinned; the permissions are exactly the declared ones and what the steps ask for in turn |
| `Importer.Analyzer.ChooseImage` | src/analyzer/jobs.rs:126-177 | The runner image is pinned whatever the job mixes, and accepted exactly when at most one of a container, container actions and components sets it |
| `Importer.Analyzer.ConvertSteps` | src/analyzer/jobs.rs:69-72 | The steps' capabilities stay within what the job has so far; every step is kept and counted; what the job may do afterwards is determined step by step |
| `Importer.Analyzer.ConvertStep` | src/analyzer/steps.rs:13-152 | A step adds no blocking finding exactly under `StepOk`; then its environment is the disjoint union of its own and its action's, and it is counted once |
| `Importer.Analyzer.MergeEnv` | src/analyzer/steps.rs:124-134 | The variables are joined, and a finding is added exactly when a name occurs in both |
| `Importer.Analyzer.ConvertRunStep` | src/analyzer/steps.rs:188-291 | A script is accepted exactly when it is static and free of what the importer refuses, and is then carried verbatim |
| `Importer.Analyzer.ConvertWorkingDirectory` | src/analyzer/steps.rs:154-186 | A directory is taken over exactly when it is static and safe, in normal form |
| `Importer.Analyzer.ConvertActionStep` | src/analyzer/actions.rs:41-165 | An action step is accepted exactly under `ActionOk`; then it is mapped, kept and granted exactly what it asks for, and a component it uses is exact and locked |
| `Importer.Analyzer.ConvertReference` | src/analyzer/actions.rs:72-164 | The reference stands for the built-in action, pinned image or prepared action that `TargetOf` says, and everything else is refused |
| `Importer.Analyzer.MapPreparedContainer` | src/analyzer/actions.rs:424-670 | The container gets each input under its own variable, its rendered arguments and exactly the declared destinations and secrets, and its image is pinned or locked |
| `Importer.Analyzer.PassContainerInputs` | src/analyzer/actions.rs:486-554 | The inputs are accepted exactly when all are static scalars under different variables; then each variable holds its input's value and there are no others |
| `Importer.Analyzer.MapPreparedComponent` | src/analyzer/actions.rs:283-422 | A component is run exactly when its reference is exact, its endpoint and its inputs are valid; it is then locked with its digest and reaches only its endpoint |
| `Importer.Analyzer.LockComponent` | src/analyzer/actions.rs:378-387 | An exact reference always has the digest that its lock entry takes, so the lookup cannot fail, and just this entry is added |
| `Importer.Analyzer.MapContainerAction` | src/analyzer/actions.rs:195-227 | A `docker://` action is accepted exactly when it names a full digest |
| `Importer.Analyzer.MapResolvedRepositoryAction` | src/analyzer/actions.rs:229-281 | A prepared action is accepted exactly when its program is an exact image or component |
| `Importer.Analyzer.MapCheckout` | src/analyzer/actions/checkout.rs:8-83 | Checkout raises the repository access to read and nothing else |
| `Importer.Analyzer.MapSetupBuildx` | src/analyzer/actions/buildx.rs:11-61 | Builder setup only adds the runner capability |
| `Importer.Analyzer.MapCache` | src/analyzer/actions/cache.rs:15-174 | Cache steps are accepted exactly with safe paths and a key; the job may then read or write what the step may |
| `Importer.Analyzer.MapUploadArtifact` | src/analyzer/actions/artifacts.rs:13-180 | An upload is accepted exactly when its name is new and its path is one safe path; no declared output is ever replaced |
| `Importer.Analyzer.MapDownloadArtifact` | src/analyzer/actions/artifacts.rs:182-231 | A download always blocks |
| `Importer.Analyzer.MapDockerBuild` | src/analyzer/actions/docker.rs:11-248 | An image build is accepted exactly with safe paths and static, non-secret options; context, file, platforms, target, build arguments, cache use and network are in the command, while tags, labels, annotations, pull, provenance and sbom are reported as emulated and left out |
| `Importer.Analyzer.ConvertNeeds` | src/analyzer/jobs.rs:331-380 | The needs list is the source's, and accepted exactly when it is static identifiers |
| `Importer.Analyzer.ConvertMatrix` | src/analyzer/jobs.rs:643-747 | The matrix has exactly the source's axes and values in order, and is accepted exactly under `StrategyOk` |
| `Importer.Analyzer.ConvertServices` | src/analyzer/jobs.rs:749-841 | Every native service is pinned by a full digest even when refused; accepted services are kept whole |
| `Importer.Analyzer.ConvertServiceImage` | src/analyzer/jobs.rs:843-874 | A service image is taken over exactly when it is static and pinned |
| `Expressions.PortExact` | src/analyzer/jobs.rs:876-918 | A value has a service port exactly when it is a number from 1 to 65535, its digits, or its digits twice around a colon |
| `Expressions.PortPrinted` | src/analyzer/jobs.rs:876-918 | Every port from 1 to 65535 is read back from each of the three forms |
| `Importer.Analyzer.ConvertJobContainer` | src/analyzer/jobs.rs:554-641 | A job container is taken over exactly when it is one pinned image and nothing else |
| `Importer.Analyzer.ConvertRunner` | src/analyzer/jobs.rs:444-552 | The runner is accepted exactly for one hosted Ubuntu label; its isolation follows from a component or an image |
| `Importer.Analyzer.ConvertPermissions` | src/analyzer/workflow.rs:474-587 | The permissions are the declared or inherited ones; they are accepted exactly when they are a map of known scopes and accesses |
| `Importer.Analyzer.ConvertEnv` | src/analyzer/workflow.rs:589-629 | An environment is accepted exactly when every entry is a static, non-secret scalar with a portable name; it is then kept name by name |
| `Importer.Analyzer.ConvertScalar` | src/analyzer/workflow.rs:666-733 | A scalar is refused exactly when it has no native value |
| `Importer.Analyzer.ConvertDisplayName` | src/analyzer/workflow.rs:631-664 | A name is kept exactly when it is static |
| `Importer.Analyzer.CheckTrustedJobs` | src/analyzer/mod.rs:155-181 | The nested loops stop at the first job or step that has a script, a job container, a service or a reference to anything but a pinned image or an exactly prepared action |
| `Importer.Analyzer.Finish` | src/analyzer/mod.rs:233-295 | There is a native workflow exactly when no finding blocks, and the counts and percentage are those of the findings |
| `Importer.PlaceholderPinned` | src/analyzer/jobs.rs:749-841 | The image that stands for a refused one is a full digest reference |
| `Compatibility.CapabilitiesNest` | src/analyzer/mod.rs:214-228 | In every import each step's destinations and secret names are within its job's native permissions, and each job's within the workflow's |
| `Compatibility.LeastPrivilege` | src/analyzer/mod.rs:214-228 | An imported workflow may reach a destination exactly when some step of some job asks for it |
| `Compatibility.LeastSecrets` | src/analyzer/mod.rs:214-228 | An imported workflow may read a secret exactly when some step of some job names it |
| `TrustedRuns.TrustedStepPinned` | src/analyzer/mod.rs:155-195 | An imported trusted-target workflow runs no script; a step runs an exact locked component, or a container in the pinned or locked image that it names itself, exactly when its reference is not that of a built-in action |
| `TrustedRuns.AllRunPinned` | src/analyzer/mod.rs:155-195 | When no prepared action has a built-in name, every step of such a workflow does |
| `TrustedRuns.PinnedReferences` | src/lib.rs:290-324 | The listing holds exactly the commit-pinned repository actions that steps use and that are not built in |
| `TrustedRuns.ListingMeets` | src/lib.rs:290-324 | Preparing only what is listed leaves no built-in name, and every prepared action that a step can run by a plain reference is listed |
| `Counterexamples.BuiltinNameRuns` | src/analyzer/mod.rs:155-195 | A prepared `docker/build-push-action` is accepted as trusted, and its step is the built-in image build |
| `LockTheory.LocksExact` | src/analyzer/actions.rs:378-387 | The lock entries are exactly those of the prepared actions that steps of the workflow run |
| `LockTheory.TwoEntriesExactly` | src/analyzer/actions.rs:378-387 | Some component has two entries exactly when two prepared actions that are run share it and differ in signer or interface |
| `LockTheory.ImagesOnce` | src/analyzer/actions.rs:597-603 | No image has two entries |
| `Counterexamples.TwoSigners` | src/analyzer/actions.rs:378-387 | An accepted workflow whose two steps run one component signed by "alice" and by "bob" has two entries for it |
| `Compatibility.ComponentDigest` | src/analyzer/actions.rs:378-381 | What follows the last `@` of an exact component is its sha256 digest |
| `Compatibility.ContainerNames` | src/analyzer/actions.rs:486-614 | A container action sets exactly its runtime, input, token and secret-file variables |
| `Compatibility.PercentMeans` | src/analyzer/mod.rs:238-248 | The percentage is at most 100, is 100 exactly when every finding is supported, and at least 50 without a blocking one |
| `Compatibility.CountsAddUp` | src/report.rs:67-80 | Every finding is counted once, and no blocking one is counted exactly when none blocks |
| `Compatibility.JobScopes` | src/analyzer/jobs.rs:51-68 | Whatever its steps do, an imported job has each GitHub scope exactly as declared, or as inherited when it declares none |
| `Lossless.GrantedExact` | src/analyzer/workflow.rs:474-587 | A scope map grants each scope the access that its entry asks for, and nothing that no entry names |
| `Actions.EffectiveExact` | src/analyzer/actions.rs:323-331 | The effective inputs are the given ones and the defaults of names not given, sorted |
| `Actions.LowerNamedExact` | src/analyzer/actions.rs:332-351 | Component inputs are all kept exactly when no two that differ in case only have different values |
| `Actions.CaseCollides` | src/analyzer/actions.rs:348-350 | A concrete pair, printed as YAML prints it, of which only the second arrives |
| `Actions.InputsArriveExactly` | src/analyzer/actions.rs:486-580 | The effective inputs of an accepted container action all arrive under variables of their own exactly when none looks like a secret without being the token and no secret file has the variable of one |
| `Counterexamples.SecretLikeDropped` | src/analyzer/actions.rs:529-531 | A workflow that gives `password: x` to a pinned image is accepted, and whatever keeps it sets no variable at all |
| `Actions.RenderedAllExact` | src/analyzer/actions.rs:618-628 | All arguments are rendered, in order, or none is |
| `Actions.WithSecretsExact` | src/analyzer/actions.rs:569-580 | Secret files replace exactly the variables of their names, each by the file of the last secret with that name |
| `Actions.TargetOf` | src/analyzer/actions.rs:72-164 | Only pinned images and prepared actions with exact programs are ever run |
| `Expressions.ScalarVerbatim` | src/analyzer/workflow.rs:666-733 | Converted scalars determine their source values |
| `Expressions.SafeRelativePath` | src/validation.rs:29-49 | The segment loop accepts exactly safe relative paths |
| `Paths.NormalizedSafe` | src/validation.rs:51-57 | A normalized path has the meaningful segments, is normal, and is safe again exactly when the first of them does not begin with a tilde |
| `Paths.TildeUncovered` | src/validation.rs:29-57 | A safe path whose normal form is not safe |
| `Validation.PinnedImageParts` | src/validation.rs:59-69 | Repository, mark and 64 hexadecimal digits make a pinned reference, which splits in one way only |
| `PermissionTheory.FoldIsLeastUpperBound` | src/native/schema.rs:138-154 | The folded permissions contain the top level's and every job's, and are within whatever contains them all |
| `PermissionTheory.FoldOrderFree` | src/analyzer/mod.rs:214-220 | Accesses, destinations, secret names and which cache fields are denied do not depend on the order of jobs |
| `PermissionTheory.MergeIsJoin` | src/native/schema.rs:138-154 | The merge is the least upper bound of two permission states |
| `PermissionTheory.CacheDeniedExactly` | src/validation.rs:95-115 | A cache field of the workflow is denied exactly when the top level's and all jobs' are |
| `PermissionTheory.CacheMergeCommutes` | src/validation.rs:95-115 | The cache merge commutes exactly where one side denies or both agree |
| `PermissionTheory.ImporterCacheOrderFree` | src/validation.rs:95-115 | On the importer's values the merged cache permission does not depend on the order |
| `CatalogTheory.ListingExact` | src/provider/pagination.rs:469-538 | For any responses at most 10 requests are made, and the listing succeeds exactly when the pages are consistent with one total and ids are distinct; the result is then a strictly sorted permutation of all entries received |
| `CatalogTheory.HonestListing` | src/provider/pagination.rs:469-538 | An honest catalog of at most 1000 distinct entries is always listed whole, in max(1, ceil(n/100)) requests |
| `CatalogTheory.ListFromSound` | src/provider/pagination.rs:486-529 | A success has read a consistent catalog to its end |
| `CatalogTheory.ListFromComplete` | src/provider/pagination.rs:486-529 | A consistent catalog with distinct ids is always read to its end |
| `Catalog.ListInstallationRepositories` | src/provider/pagination.rs:469-538 | The page loop with its mutable list and total computes the listing that the theorems are about, and sends nothing with a token about to expire |
| `Catalog.SortStrict` | src/provider/pagination.rs:530-536 | Comparing neighbours after sorting finds every repeated id |
| `Calendar.ClosedForm` | src/provider/pagination.rs:450-456 | The closed-form day count is the sum of the year lengths since 1970 |
| `Calendar.CheckedNeverFails` | src/provider/pagination.rs:386-434 | On valid dates from 1970 to 9999 no checked operation fails |
| `Calendar.PrintedParses` | src/provider/pagination.rs:386-434 | Every valid date's text is accepted with its second |
| `Calendar.ParsedIsPrinted` | src/provider/pagination.rs:386-434 | Every accepted text is the one text of its date |
| `Calendar.EverySecondOnce` | src/provider/pagination.rs:386-434 | Every second of the range has exactly one accepted text |
| `Calendar.AcceptedInRange` | src/provider/pagination.rs:386-434 | Accepted texts mean seconds of the range |
| `Calendar.SecondsOrder` | src/provider/pagination.rs:386-462 | Seconds order dates as their fields do |
| `Calendar.TextOrderIsTimeOrder` | src/provider/pagination.rs:386-434 | Comparing accepted texts as strings compares the instants |
| `StrictYaml.ValidateStrictYaml` | src/strict_yaml.rs:10-53 | A document is accepted exactly when nodes and bytes are within the limits, keys are distinct text at every depth and floats are finite |
| `StrictYaml.StrictYamlBudget.Visit` | src/strict_yaml.rs:60-162 | With any budget left, a value is accepted exactly when it is sane and fits, and is charged in full |
| `StrictYaml.StrictYamlBudget.VisitMap` | src/strict_yaml.rs:177-199 | The walk with its set of seen keys accepts exactly mappings with distinct keys that fit |
| `StrictYaml.StrictYamlBudget.VisitSeq` | src/strict_yaml.rs:164-175 | Likewise for sequences |
| `StrictYaml.StrictYamlBudget.VisitKey` | src/strict_yaml.rs:201-213 | A key is charged as a node and must be text |
| `Dockerfile.ValidateDockerfilePolicy` | product/server/src/action_builder_main.rs:509-544 | The line loop with its pending text computes the policy over logical lines |
| `DockerfileGraph.PolicyExact` | product/server/src/action_builder_main.rs:509-646 | A Dockerfile is accepted exactly when it has a stage and every instruction fits the stages before it |
| `DockerfileGraph.FromEndsPinned` | product/server/src/action_builder_main.rs:580-619 | Following FROM from any stage ends at scratch or an allowlisted image |
| `DockerfileGraph.FromPathsEnd` | product/server/src/action_builder_main.rs:580-619 | Every FROM path is at most as long as the stages before it |
| `DockerfileGraph.WalksStayPinned` | product/server/src/action_builder_main.rs:621-646 | FROM and COPY edges reach only declared stages, scratch and allowlisted images |
| `DockerfileGraph.CyclesAreSelfCopies` | product/server/src/action_builder_main.rs:635-640 | The only cycles are COPY instructions that name their own stage |
| `DockerfileGraph.SelfCopyAccepted` | product/server/src/action_builder_main.rs:635-640 | Such a COPY is accepted |
| `Templates.RenderActionArgument` | src/analyzer/actions.rs:698-712 | The loop renders the pieces of the template, each read once |
| `Templates.PrintedScan` | src/analyzer/actions.rs:698-712 | A template printed from literals and references renders to the literals and values exactly when every name is known |
| `Templates.JoinedExact` | src/analyzer/actions.rs:704-706 | Rendering fails exactly when some expression is unterminated, not an input or unknown |
| `Tail.ReadTail` | product/server/src/action_builder_main.rs:728-747 | For every cut into reads and every limit the result is the last bytes up to the limit, and never more is held |
| `Tail.KeptIsLast` | product/server/src/action_builder_main.rs:728-747 | Keeping the end chunk by chunk is keeping the end of the whole |
| `Envelope.AadRoundTrip` | product/server/src/runner_broker.rs:39-54 | Decoding the associated data gives back all ten fields |
| `Envelope.AadInjective` | product/server/src/runner_broker.rs:39-54 | Equal associated data means equal bindings |
| `Envelope.DecodedIsEncoded` | product/server/src/runner_broker.rs:39-54 | The decoder accepts only what the encoder writes |
| `Envelope.Aad` | product/server/src/runner_broker.rs:39-54 | The bytes are the domain and the ten fields, and it fails exactly when a field is too long |
| `Envelope.AadBuffer.AppendField` | product/server/src/runner_broker.rs:126-131 | A field is appended exactly when its length fits 32 bits |
| `Envelope.Assemble` | product/server/src/runner_broker.rs:88-122 | The envelope opens to the parts it was made of |
| `Materials.MaterialExact` | product/server/src/action_builder_main.rs:648-662 | For images that the configuration check accepts the hashed bytes agree exactly when the sets do |
| `Materials.CacheIdExact` | product/server/src/action_builder_main.rs:441-456 | Valid configurations and requests share a cache id exactly when all six parts agree |
| `Materials.NormalizedExact` | product/server/src/action_builder_main.rs:648-653 | Normalizing forgets order and repetition only |
| `Materials.MaterialBytes` | product/server/src/action_builder_main.rs:655-662 | The loop writes the prefix and each image with its terminator |
| `Materials.TerminatedInjective` | product/server/src/action_builder_main.rs:655-662 | Terminated lists of accepted images are uniquely decodable, even where an image holds a NUL |
| `CanonicalJson.CanonicalExact` | src/source/workflow_source.rs:242-256 | Two trees have one canonical form exactly when they are equal up to key order at every depth |
| `CanonicalJson.Idempotent` | src/source/workflow_source.rs:242-256 | Canonicalizing twice changes nothing |
| `CanonicalJson.IdentifierListsCanonical` | src/source/workflow_source.rs:234-240 | Accepted identifier lists are strictly sorted, and equal when they have the same elements |

## Left out

- HTTP, sockets, subprocesses, file permissions and ownership: only their outcomes appear, as fates of requests and results of file operations.
- Cryptography: digests are injective functions and ciphertexts are opaque.
- JSON, YAML and TOML text: the model starts from parsed values. Printing a value as YAML, printing a number and Unicode upper case are parameters (`Expressions.Library`, of which the concrete cases fix a value or two), as is the size of a serialized check-run body.
- Admission of a check request and its token (src/provider/checks.rs:364-457) is one Boolean; each of its conditions is a single comparison.
- Check runs: one driver per request at a time, and a provider that counts annotations truly.
- Broker.GitHubAppBroker.ResumeCheckRun: requires a cursor within the list, because the source would panic on a larger one; reconciliation guarantees it.
- CheckRunSafety.CampaignSafe: lets other clients act between two attempts, but not between two requests of one attempt.
- BuildCache.ServedConsistent: orders requests one after another, so it does not cover two builder processes at work on one cache id. The first read of a resolution fails only when the file is absent, except in `UnreadResolution`, where that one request may misread it.
- Staging.RunKeeps: the file system is a map of trees changed by atomic steps, workers are states of a machine instead of threads, and the loop of `materialize` is its step `Place`.
- Importer.Import: does not convert triggers, concurrency groups, conditions and timeouts: they are emulated rather than preserved, and would add conversions of the same kind. "Supported" means supported in everything else. The request for a trusted target is a field of the source workflow.
- Finding paths, messages and required changes, and the order of findings: only status and code are kept, and some codes stand for several.
- Writing the native workflow and the lock file, and the compiler that checks them afterwards: these are other libraries.
- Tables of the source are lists in the order of their maps, with distinct names (`Workflow.WellFormed`).
- Compatibility.CapabilitiesNest: compares destinations and secret names. The private-range flag of a step need not be its job's, as the container path does not raise it, and of two purposes for one secret the job keeps the last.
- ASCII case folding is the only one modelled; host names and stage names use no other.
- Calendar: leap seconds and other offsets, which the parser refuses.
- Dockerfile: Docker's own grammar; the lines are folded as the validator folds them.
- The database, the worker loop around the publisher, webhooks, the runner, the proxy, the admitter and the user interface.
