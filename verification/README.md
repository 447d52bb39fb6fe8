# Verification of the provisioning control plane

This project models the parts of the control plane whose mistakes are hard to see by
reading, and proves what they promise: the manifest validator and the Terraform renderer and
packer, the concurrent stores and caches, the membership guard and the audit chain, the
approval and policy rules, the AWS state backend, and the agent's sessions and prompt
versions. `dafny verify dfyconfig.toml` checks everything.

Sequential code that changes things step by step is modelled as methods and classes proved
against specification functions. Handlers whose database or lock steps interleave are
modelled as step systems (`Runs.dfy`): a run is any sequence of steps of any number of
clients, and the theorems hold for every run.

Files: `Common`, `Runs` (shared vocabulary); `DependencyGraph`, `Manifests`, `Hcl`,
`ValidManifests`, `Terraform`, `Bundle`, `LoadedModule` (compiler); `LastAdmin`, `AuditForms`,
`AuditChain`, `Decimals`, `Jsonb`, `JsonMeaning`, `ManifestVersions`, `ManifestMemory`,
`Capabilities`, `StateBackends`, `IacArtifacts` (concurrency); `Approval`, `ApprovalRules`,
`ApprovalOutcome`, `Policy` (rules); `AwsBackend` (convergence); `AgentPolicy`,
`AgentSessions`, `SemVer` (agent).

## What is assumed

- PostgreSQL runs at READ COMMITTED. A locking read that waited looks at the row again; row and
  advisory locks last until commit or rollback; an uncommitted row makes an insert with the
  same unique key wait.
- `(run_id, version)` and `(run_id, idempotency_key)` are unique for manifests, and the audit
  `hash` is unique (backend/migrations/000004_provisr_manifest.up.sql:10,
  backend/migrations/000021_run_planning_lifecycle.up.sql:32,
  backend/migrations/000007_provisr_audit.up.sql:32).
- Run mutations take the row lock and bump `state_version`.
- SHA-256, template execution, number, prefix and pattern reading are parameters, and so is JSON
  encoding outside audit payloads. Digests are 64 hexadecimal digits; no theorem assumes that
  they never collide.
- Where packed files are read back, JSON encoding prints one line and a name in quotes as it is,
  and Terraform types are one line (`LoadedModule.Encodes`).
- A jsonb column keeps numbers as decimals, prints them without exponents and compares them by
  value. Text columns hold no zero byte, and what goes into a UUID column is spelled with
  hexadecimal digits, hyphens and at most a pair of braces around them.
- Remote calls return anything. In the S3 and DynamoDB model a failed write may have taken
  effect, an error that says something is missing is true, and nobody else changes the resource.
- The theorems about rendering and approval hold for any catalogue, fixed texts and wording;
  the source's own are `Rendering.Catalog`, `Rendering.ProvidersText`, `Bundling.ProviderConfig`
  and `ApprovalRules.EngineKit`.
- One clock serves the service and the database.

## Where the code does not do what is expected of it

Each comes with its exact condition and with an input, a run or a family of inputs that shows it.

- The last-admin guard counts a locked snapshot that may be empty when it gets the locks
  (`LastAdmin.LosesExactly`; a run in `LastAdmin.LastAdminCanBeLost`).
- A keyed manifest store compares stored JSON text with what it was given, so a repeated call
  is refused exactly when a number in it has an exponent or is a negative zero
  (`ManifestVersions.KeyedReplaysExactly`; a run in `ManifestVersions.ExponentReplayRefused`).
- Contrary to the comment at
  backend/internal/cloudaccount/audit.go:8-10 the audit chain does not show every change to a
  committed event: fields a form leaves out are not sealed, and
  the cloud account service's form leaves out workspace and account
  (`AuditChain.ChangesShowExactly`; two events in `AuditChain.DeletionsLookAlike`). What the forms
  do hash is told apart (`AuditForms.PreimagesAlikeExactly`).
- A validated manifest can have a dependency cycle by trimmed names, through a padded resource
  (`RenderedGraph.TrimmedAcyclicExactly`; in every valid manifest by
  `RenderedGraph.PaddedSelfDependencyIsValid`).
- Packing refuses a padded network type without encryption that rendering accepts
  (`BundleProperties.BundleSucceedsExactly`; a family in `BundleProperties.PaddedNetworkRefused`).
- A success that is committed after a concurrent failure can still be marked failed: the guard
  goes by when the attempts started, as its comment at
  backend/internal/statebackend/store.go:230-231 says, and not by commits
  (`StateBackends.FailureReplacesExactly`; a run in `StateBackends.LaterSuccessCanBeHidden`).
- With a disabled policy a draft can pass compliance and still be refused by the pre-flight,
  which leaves the turn open (`AgentRuns.SilentRefusalExactly`; a turn in
  `AgentRuns.SilentRefusalHappens`).
- The version pattern is narrower than Semantic Versioning (`SemVer.AcceptedVersions`; a version
  in `SemVer.MixedIdentifierRefused`).

## Model

| member | source | states |
|---|---|---|
| DependencyGraph.DetectCycles | backend/internal/manifest/validator.go:256-303 | the search ends, returns nothing exactly when the raw-name graph has no closed walk, and otherwise a real closed walk that repeats only its end point |
| DependencyGraph.CycleSearch.Dfs | backend/internal/manifest/validator.go:265-292 | the visiting nodes are exactly the path; a node is left only after everything it depends on, so the nodes left are in topological order; the number of unvisited nodes falls with every call |
| DependencyGraph.IndexOf | backend/internal/manifest/validator.go:273-279 | on the current path the start-index search finds its node and never falls through |
| DependencyGraph.AcyclicIsOrdered | backend/internal/manifest/validator.go:256-303 | a graph without closed walks has a topological order of all its names |
| DependencyGraph.OrderedIsAcyclic | backend/internal/manifest/validator.go:256-303 | a topological order of all names rules out every closed walk |
| Validation.Validate | backend/internal/manifest/validator.go:43-253 | the errors reported are exactly the defects the manifest has, and it is valid exactly when it has none |
| Texts.TrimIsMiddle | backend/internal/manifest/validator.go:56 | trimming takes white space away at the two ends and nothing else |
| ValidManifests.AcceptsExactly | backend/internal/manifest/validator.go:13-253 | a manifest is accepted if and only if its version is 1 with a minor and maybe a patch number, provider, region, names, types, lineage and cost are well formed, trimmed names are unique, every dependency is the trimmed name of some resource and not the own raw name, and no circle of listings leads back |
| ValidManifests.KindExactly | backend/internal/manifest/validator.go:140-177 | a type has no defect exactly when it is a known domain, the manifest's provider and a word, joined by dots |
| ValidManifests.VersionExactly | backend/internal/manifest/validator.go:13-20 | a schema version is accepted exactly when it is `1.` and a minor number, or that with a patch number |
| Validation.ResourceErrors | backend/internal/manifest/validator.go:113-200 | one round of the resource loop reports exactly the resource's own defects, and the map then holds exactly the well-formed names so far |
| Validation.DependencyErrors | backend/internal/manifest/validator.go:203-220 | self and dangling dependencies are reported exactly when there is one |
| RenderedGraph.RenderableGraph | backend/internal/terraform/render.go:66-121 | when rendering succeeds with nothing unsupported, names are unique, every dependency names exactly one rendered resource, and some order puts each resource after what it depends on |
| RenderedGraph.DependenciesResolve | backend/internal/manifest/validator.go:203-220 | in a valid manifest without padded names every dependency is the exact name of another resource |
| RenderedGraph.TrimmedAcyclicExactly | backend/internal/manifest/validator.go:203-229 | the dependencies of a valid manifest, looked up by trimmed name, have no cycle if and only if no resource with a padded name reaches itself |
| RenderedGraph.SelfDependencyIsPadded | backend/internal/manifest/validator.go:203-212 | a resource of a valid manifest that lists its own trimmed name has a padded name, and so reaches itself |
| RenderedGraph.PaddedSelfDependencyIsValid | backend/internal/manifest/validator.go:118-138 | in every valid manifest any resource with an unpadded name can be padded and made to depend on itself, and the manifest stays valid; the renderer's white space check excludes it |
| Hcl.EscapeRoundTrip | backend/internal/terraform/render.go:144-151 | undoing the template escapes with one leftmost scan gives back every text, and a reader sees only literal characters |
| Hcl.NoBareIntroducer | backend/internal/terraform/render.go:144-151 | no introducer is left in the escaped text that is not doubled |
| Hcl.ReplacementsCommute | backend/internal/terraform/render.go:149-150 | the two replacements can be done in either order |
| Rendering.Properties | backend/internal/terraform/render.go:153-220 | the field loop accepts exactly the reviewed property maps and adds at most the versioning default |
| Rendering.Screen | backend/internal/terraform/render.go:75-85 | a padded name stops everything; otherwise exactly the resources without a template are listed, in order |
| Rendering.CollectDependencies | backend/internal/terraform/render.go:113-121 | the sorted references of all rendered resources the dependencies name |
| Rendering.Render | backend/internal/terraform/render.go:66-139 | the loops compute the all-or-nothing rendering: an error, every unsupported resource, or every file in logical-name order |
| Bundling.TranslateAliases | backend/internal/terraform/bundle.go:17-37 | the alias loop succeeds exactly when every bucket alias is consistent and then moves each name, losing nothing else |
| Bundling.Gather | backend/internal/terraform/bundle.go:57-76 | one part per resource in order, the bodies collected by domain, and an error exactly when the second look at the properties refuses one |
| Bundling.Bundle | backend/internal/terraform/bundle.go:13-85 | whatever order the domain map is walked in, the sorted result is the specified one |
| Bundling.CatalogIsReviewed | backend/internal/terraform/render.go:44-51 | the catalogue uses no directory that clashes with the generated resource files, and AWS has a root block |
| BundleProperties.BundlePlaces | backend/internal/terraform/bundle.go:69-74 | the text rendered for a resource lies in the file of its domain, between the texts of the earlier and later resources of that domain |
| BundleProperties.BundleConserves | backend/internal/terraform/bundle.go:57-82 | both variable files hold the same declarations, and the domain files hold exactly as much text as the resources contributed |
| LoadedModule.ModuleReadsBack | backend/internal/terraform/bundle.go:45-82 | the packed files read back line by line: both variable files declare r_ and the name of each resource, the values file assigns each the completed properties of its resource, the module block passes each on as var. and the same name, and the outputs give each name its address; all in logical-name order and nothing else |
| LoadedModule.EachOnce | backend/internal/terraform/bundle.go:56-68 | no list of declarations, values or arguments names anything twice |
| LoadedModule.PackedHanded | backend/internal/terraform/render.go:87-121 | the body of a packed resource is what its template prints for its own properties, given as references into its own variable unless they are flags, its tags over the manifest's, and the sorted addresses of its dependencies |
| LoadedModule.BodyPlaced | backend/internal/terraform/bundle.go:69-82 | that body lies in the file named after the directory of its template |
| LoadedModule.RenderedHanded | backend/internal/terraform/render.go:87-135 | the same for a plain rendering: one file per resource, printed from its own data |
| LoadedModule.CompletedExactly | backend/internal/terraform/render.go:153-220 | completing properties keeps what was given and adds at most the versioning default |
| LoadedModule.AliasMoves | backend/internal/terraform/bundle.go:17-37 | the alias moves the name of a bucket and changes nothing else |
| BundleProperties.TextIsConserved | backend/internal/terraform/bundle.go:69-74 | for any resources, the lengths of the domain files add up to the lengths of the bodies |
| BundleProperties.PlacedPart | backend/internal/terraform/bundle.go:69-83 | for any resources, the file of a body's domain is that body between the bodies before and after it |
| Bundling.MatchPrinted | backend/internal/terraform/bundle.go:70-74 | searching the rendered files for a resource's path finds what was printed for it and nothing else |
| Bundling.SortedNamesUnique | backend/internal/terraform/bundle.go:55-56 | arrangements of resources with distinct names sort alike |
| Bundling.FilesSortUniquely | backend/internal/terraform/bundle.go:79-83 | files with distinct paths sort alike whatever order the domain map yields them in |
| BundleProperties.BundleResourceOrder | backend/internal/terraform/bundle.go:56-63 | resources are packed in logical-name order, each once and none lost, under distinct variables |
| BundleProperties.BundlePathsSorted | backend/internal/terraform/bundle.go:77-84 | paths are distinct and sorted: six fixed files and one per domain |
| BundleProperties.BundlePermuted | backend/internal/terraform/bundle.go:13-85 | permuting the resources of a manifest gives the same files |
| BundleProperties.WellFormedPermuted | backend/internal/manifest/validator.go:43-253 | validity does not depend on the order of the resources |
| BundleProperties.RenderPermuted | backend/internal/terraform/render.go:66-139 | neither does a successful rendering |
| BundleProperties.RenderRetyped | backend/internal/terraform/render.go:75-85 | rendering reads types trimmed: padding them changes no file |
| BundleProperties.PaddedNetworkRefused | backend/internal/terraform/render.go:214-219 | padding the type of an unencrypted network resource leaves a packable manifest renderable and makes it unpackable |
| BundleProperties.BundleSucceedsExactly | backend/internal/terraform/bundle.go:17-62 | packing succeeds exactly when the aliases are consistent, the aliased manifest renders, and no unencrypted network resource has a padded type (the second look reads the type unpadded, the first trimmed) |
| LastAdmin.LosesExactly | backend/cmd/workspace-service/main.go:1012-1042 | in every state the transactions can reach, a step takes the last admin away if and only if it commits a dropping change whose guard counted no admin row at all and whose target is now the only admin |
| LastAdmin.AdminSurvives | backend/cmd/workspace-service/main.go:831-1042 | over every interleaving in which each passing guard counted a row, the workspace always has an admin |
| LastAdmin.LastAdminCanBeLost | backend/cmd/workspace-service/main.go:1014-1022 | a concrete run of removals, an addition and a role update after which no admin is left: the locking scan waits on a stale snapshot and counts nobody |
| LastAdmin.LocksExcludeRemovers | backend/cmd/workspace-service/main.go:1014-1022 | while one transaction holds every admin row, no number of steps of the others takes an admin away |
| LastAdmin.FreshCountIsExact | backend/cmd/workspace-service/main.go:1014-1022 | a scan that counted every current admin row has the number of admins |
| LastAdmin.StepKeepsInv | backend/cmd/workspace-service/main.go:831-1042 | row locks exclude each other, counted rows stay admins while they are held, and a guard that counted at most one row did not count its own target |
| LastAdmin.RolesAreWhatCommitted | backend/cmd/workspace-service/main.go:831-1042 | over every interleaving each user's membership and role are what the committed additions, role updates and removals asked for, in commit order, and nothing else |
| AuditChain.CommittedEventsChain | backend/cmd/workspace-service/audit.go:36-88 | with transactions that commit or roll back at any step, committed events form one unforked chain in sequence order, the first without predecessor |
| AuditChain.LogOnlyGrows | backend/cmd/workspace-service/audit.go:36-88 | a committed event is never changed or moved |
| AuditChain.LogIsWhatCommitted | backend/cmd/workspace-service/audit.go:36-88 | over every run the log holds exactly the contents committed transactions inserted, in commit order and within one in insert order |
| AuditChain.CommitsExtend | backend/cmd/workspace-service/audit.go:74-88 | a commit extends the log by exactly what its transaction inserted, and no other step changes it |
| AuditChain.AppendsAlone | backend/cmd/workspace-service/audit.go:36-88 | for every content, one append to the empty log ends with that event, without predecessor, under the seal of just that |
| AuditChain.NewestIsLast | backend/cmd/workspace-service/audit.go:40-44 | reading the highest sequence number finds the chain's last event |
| AuditForms.PreimagesAlikeExactly | backend/cmd/workspace-service/audit.go:54-72 | over the four forms in use, two committed contents share the hashed text behind their predecessors if and only if predecessor and form are the same and the hashed fields agree; the actor, and a resource identifier the database does not type, may be any text |
| AuditForms.BarForms | backend/internal/iacartifact/store.go:169 | the long form and the shorter one of the artifact, state backend and manifest services and the orchestrator tell their fields and each other apart |
| AuditForms.CutPayload | backend/cmd/workspace-service/audit.go:66-70 | the object's text behind the last of any number of bars is read back, though it may hold bars itself |
| AuditForms.ZeroForms | backend/internal/policy/service.go:865-874 | the zero-byte form of the policy and approval services tells every field |
| AuditForms.BareForms | backend/internal/cloudaccount/audit.go:11-18 | the form without separators still tells event, payload and correlation identifier |
| AuditForms.SameLead | backend/cmd/workspace-service/audit.go:54-56 | every hashed text tells the predecessor, and which separator its form uses |
| AuditForms.RenderedObject | backend/cmd/workspace-service/audit.go:25-28 | whatever strings a payload holds, its rendered text is one of those the reading back works for |
| AuditChain.TailVouchesForHashed | backend/cmd/workspace-service/audit.go:54-82 | two chains end in the same hash exactly when they agree, event by event, in predecessor, form and hashed fields, unless two of their texts collide |
| AuditChain.ChangesShowExactly | backend/internal/cloudaccount/audit.go:8-10 | a committed event can be changed in place without breaking the chain if and only if the change keeps the form and the fields it hashes, or hits a collision; the comment promises that any change shows |
| AuditChain.AccountIsNotSealed | backend/internal/cloudaccount/audit.go:11-18 | an event of the cloud account service can be moved to any other workspace and account without breaking the chain, whatever the digest |
| AuditChain.DeletionsLookAlike | backend/internal/cloudaccount/service.go:960-972 | two deletions in two workspaces with one hashed text |
| ManifestVersions.VersionsAreGapless | backend/internal/manifest/store.go:118-123 | over every interleaving of draft, keyed and plain writers the committed versions are exactly 1..n, no key owns two, and a committed draft was validated at the state version the run still has, with planning still open |
| ManifestVersions.CommitsAppend | backend/internal/manifest/store.go:118-133 | after any run, a commit of any of the three writers appends exactly one version: the next number, that writer's content and key; no other step changes the log |
| ManifestVersions.VersionsWereSent | backend/internal/manifest/drafts.go:238-241 | over every run each version holds the content and key of a call that was made |
| ManifestVersions.LocksAreReleased | backend/internal/manifest/drafts.go:187-206 | over every run only open draft transactions hold the row lock, and only open keyed ones the advisory lock |
| ManifestVersions.DraftsTwice | backend/internal/manifest/drafts.go:164-249 | for every content, the run of a draft stored and repeated: answered twice with version 1, which holds that content |
| ManifestVersions.PlainStoresTwice | backend/internal/manifest/store.go:139-190 | for every content, two plain stores give versions 1 and 2 with that content |
| ManifestVersions.LogOnlyGrows | backend/internal/manifest/drafts.go:238-241 | committed versions never change |
| ManifestVersions.OneVersionPerKey | backend/internal/manifest/drafts.go:164-233 | all successful answers to one key name one version, across both keyed entry points |
| ManifestVersions.GivesUpOnlyWhenOvertaken | backend/internal/manifest/store.go:167-190 | after any run the plain call fails for the race only when three other versions were committed while it tried |
| ManifestVersions.DraftReplaysExactly | backend/internal/manifest/drafts.go:167-184 | after any run a draft whose key is taken is answered with the key's version if and only if the contents are equal as jsonb values, so a repeated draft always is |
| ManifestVersions.KeyedLooksExactly | backend/internal/manifest/store.go:105-114 | after any run a keyed call whose key is taken is answered with the key's version if and only if no number in its content has an exponent or is a negative zero and it is stored like the key's content; otherwise it gets a conflict |
| ManifestVersions.KeyedReplaysExactly | backend/internal/manifest/store.go:80-114 | so a keyed call that repeats its content is answered if and only if no number in it has an exponent or is a negative zero |
| ManifestVersions.StoresTwice | backend/internal/manifest/store.go:80-133 | for every content, a run that stores it and repeats the call, with the two replies |
| ManifestVersions.ExponentReplayRefused | backend/internal/manifest/store.go:452-466 | the run for 1e2, stored as 100: the store succeeds and the very same call is refused |
| Jsonb.RespelledExactly | backend/migrations/000004_provisr_manifest.up.sql:7 | a JSON number comes back as it was spelled if and only if it has no exponent and is no negative zero |
| Jsonb.RespelledValue | backend/migrations/000004_provisr_manifest.up.sql:7 | what comes back is a JSON number of the same value and scale, and is stored unchanged from then on |
| Jsonb.StoredExactly | backend/internal/manifest/store.go:452-466 | content comes back equal if and only if all its numbers do |
| Jsonb.StoredKeepsValue | backend/internal/manifest/drafts.go:167-168 | comparing stored values is comparing the given ones by value |
| JsonMeaning.EqualExactly | backend/internal/manifest/drafts.go:167-168 | two values are equal to the database exactly when they mean the same tree over the real numbers |
| JsonMeaning.NumberMeans | backend/migrations/000004_provisr_manifest.up.sql:7 | a number's text, with or without an exponent, stands for its digits with the point moved by it, and keeps the digits left behind the point |
| JsonMeaning.StoredMeansSame | backend/migrations/000004_provisr_manifest.up.sql:7 | what the column gives back means what was stored |
| ManifestVersions.PlacedFollows | backend/internal/manifest/store.go:155-164 | an insert without a clash has the next number and is the only one placed; a plain insert that clashes was overtaken |
| ManifestMemory.MapKeyInjective | backend/internal/manifest/store.go:339 | the concatenated key tells runs and keys apart for every identifier the parser accepts |
| ManifestMemory.MemoryStore.StoreWithKey | backend/internal/manifest/store.go:323-354 | a new key appends one version to its own run; a known key changes nothing; no other run or key is touched |
| ManifestMemory.MemoryStore.Store | backend/internal/manifest/store.go:357-391 | appends the next version of the run |
| ManifestMemory.MemoryStore.Get | backend/internal/manifest/store.go:394-409 | the scan by version number finds the entry at that position |
| ManifestMemory.MemoryStore.GetLatest | backend/internal/manifest/store.go:412-427 | the latest record has the highest version |
| ManifestMemory.ExtractedIsStored | backend/internal/manifest/store.go:507-547 | a reader extracts the hash of the stored bytes, even when the content comes back spelled differently |
| DiscoveryCache.CapabilitiesHandler.Begin | backend/internal/cloudaccount/capabilities.go:217-226 | the first critical section: an unexpired entry, and the generation |
| DiscoveryCache.CapabilitiesHandler.Finish | backend/internal/cloudaccount/capabilities.go:227-246 | stores only usable facts of the current generation, drops what expired, and keeps within capacity |
| DiscoveryCache.CapabilitiesHandler.Invalidate | backend/internal/cloudaccount/capabilities.go:254-261 | bumps the 64-bit generation and drops exactly the keys of the workspace |
| DiscoveryCache.KeyInjective | backend/internal/cloudaccount/capabilities.go:218 | for identifiers without colons the key names workspace, account and update |
| DiscoveryRuns.CachedEntriesAreCurrent | backend/internal/cloudaccount/capabilities.go:217-261 | over every interleaving: at most 1024 entries, all safe to index, each of its workspace's current generation; one began before the last refresh if and only if a positive multiple of 2^64 refreshes lies between |
| DiscoveryRuns.NothingOutlivesRefresh | backend/internal/cloudaccount/capabilities.go:231-235 | in fewer than 2^64 steps nothing begun before a refresh is cached after it |
| DiscoveryRuns.ServedIsFresh | backend/internal/cloudaccount/capabilities.go:217-226 | over every interleaving a request that starts no discovery was not forced, and gets facts some discovery brought less than an hour before |
| DiscoveryRuns.FoundIsServed | backend/internal/cloudaccount/capabilities.go:217-247 | for every account and usable facts, the request after a discovery starts none exactly when it is not forced and comes within the hour, and then gets those facts |
| CapabilityListing.List | backend/internal/cloudaccount/capabilities.go:105-149 | one described item per account, sorted by identifier; an account of another workspace fails the request |
| CapabilityListing.PickRegion | backend/internal/cloudaccount/capabilities.go:132-139 | the region loop yields the account's default if it is on offer, else the first |
| CapabilityListing.DescribedIsConsistent | backend/internal/cloudaccount/capabilities.go:113-147 | the default region is among the regions listed, they are a sorted permutation of the discovered ones, an account is ready exactly when its permissions were verified less than a day ago, and otherwise the warning gives the first reason |
| StateBackends.KeysAnsweredOnce | backend/internal/statebackend/store.go:152-225 | over every interleaving all answers to one key are one response naming the account's record, and no key is stored twice |
| StateBackends.AnswersWereTold | backend/internal/statebackend/store.go:152-225 | over every interleaving each answer tells what the driver reported to an attempt with that very key, verified when its transaction began |
| StateBackends.EnsuredOnce | backend/internal/statebackend/store.go:152-225 | for every key, the run of a success and its repetition: a ready record, and the same answer twice |
| StateBackends.FailureIsRecorded | backend/internal/statebackend/store.go:230-256 | the run of a first attempt that fails: a failed record, and nobody answered |
| StateBackends.ResponsesOnlyGrow | backend/internal/statebackend/store.go:196-213 | over every run a stored response and the record's identifier never change |
| StateBackends.FailureReplacesExactly | backend/internal/statebackend/store.go:253-256 | in every reachable state a ready record is marked failed exactly when the reported attempt started after the transaction that wrote the record began, so one committed by an attempt that started no earlier stays, as line 231 promises |
| StateBackends.NewerSuccessStays | backend/internal/statebackend/store.go:230-256 | a ready record outlives every run in which no failing attempt started after the transaction that wrote it began |
| StateBackends.LaterSuccessCanBeHidden | backend/internal/statebackend/store.go:230-256 | going by commits instead of starts does not hold: a success of an earlier attempt, committed after the failing driver call, can be marked failed, because now() is when its transaction began |
| IacArtifacts.OneArtifactPerManifest | backend/internal/iacartifact/store.go:35-152 | over every interleaving a manifest has at most one artifact and a key binds one manifest; each was committed while generating with exactly its version selected, validated and confirmed |
| IacArtifacts.DecidesExactly | backend/internal/iacartifact/store.go:66-106 | in every reachable state a locked request goes on to generate exactly when its version is confirmed in its context, the run is generating and neither key nor manifest has an artifact; it is answered with an artifact exactly when that is its key's, for its manifest |
| IacArtifacts.GeneratesOnce | backend/internal/iacartifact/store.go:35-152 | for every confirmed request of a generating run, the run that stores its artifact and the repetition that answers with the same one |
| IacArtifacts.AnswersAgree | backend/internal/iacartifact/store.go:78-104 | all answers for one key, or for one manifest, are one artifact |
| IacArtifacts.ReplaysWhileConfirmed | backend/internal/iacartifact/store.go:25-31 | after any steps an answered request is answered identically, in whatever state the run is, if and only if its version is still selected, validated and confirmed |
| IacArtifacts.DigestedInjective | backend/internal/iacartifact/store.go:124-130 | the separators tell different file lists apart |
| ApprovalInput.Normalize | backend/internal/approval/rules.go:238-319 | the checks in their order and the normal form |
| ApprovalInput.AcceptedExactly | backend/internal/approval/rules.go:238-319 | which inputs are accepted, word by word, and which of them are production |
| ApprovalInput.SpellingIgnored | backend/internal/approval/rules.go:238-319 | case and surrounding white space of words make no difference |
| ApprovalInput.NormalFormKept | backend/internal/approval/rules.go:238-319 | an accepted input in normal form is left as it is |
| ApprovalInput.NormalizeChanges | backend/internal/approval/rules.go:253-274 | the change loop reports the first refused entry or normalises all |
| ApprovalInput.NormalizeIdempotent | backend/internal/approval/rules.go:238-319 | normalising twice is normalising once |
| ApprovalInput.NormalFormOrderFree | backend/internal/approval/rules.go:275-318 | when equal sort keys mean equal entries, the digested input does not depend on the order of changes and violations |
| ApprovalInput.OrderCanMatter | backend/internal/approval/rules.go:275-284 | otherwise it does: two different changes of one key can be swapped |
| ApprovalRules.WideOpenHasPath | backend/internal/approval/rules.go:548-591 | the recursive walk succeeds exactly when a path leads to an open source past no outgoing, denying or skipped part |
| ApprovalRules.Aggregate | backend/internal/approval/rules.go:189-219 | the accumulator loop computes reasons, top rule, highest risk and escalation |
| ApprovalRules.CollectResourceTypes | backend/internal/approval/rules.go:374-389 | the category loop lists exactly the addresses of database deletions, IAM changes and open groups |
| ApprovalRules.CollectKeys | backend/internal/approval/rules.go:442-449 | the approval-class rule keys, each once, in order |
| ApprovalRules.Evaluate | backend/internal/approval/rules.go:155-221 | the engine answers what the specification gives |
| ApprovalOutcome.OutcomeExactly | backend/internal/approval/rules.go:155-221 | for every accepted input the approver, the risk, whether approval is required and the reported rules, from what the changes, violations, costs and roles say: admin for a destroyed database or production, else security for IAM, open groups or exposure, else finance for five times the threshold, else admin for a role that may not, else security for a policy that asks, else finance above the threshold, else nobody |
| ApprovalOutcome.ReasonsAreGiven | backend/internal/approval/rules.go:189-219 | the reason holds the reason of every reported rule |
| ApprovalProperties.EvaluationOrderFree | backend/internal/approval/rules.go:155-221 | permuting changes and violations gives the same decision, risk, approver, rules and reason |
| ApprovalProperties.FindingsOrderFree | backend/internal/approval/rules.go:373-449 | sorted arrangements of the same entries give the rules the same addresses and keys, even where entries differ beyond their sort key |
| ApprovalProperties.RiskExactly | backend/internal/approval/rules.go:193-219 | the risk is the level of what fires, and approval is required exactly above the lowest |
| ApprovalProperties.RiskOfAnswer | backend/internal/approval/rules.go:193-219 | the same for every normalised input |
| ApprovalProperties.CriticalExactly | backend/internal/approval/rules.go:213-216 | critical means a database is deleted or replaced, or production meets another high-risk rule, and nothing else |
| ApprovalProperties.CriticalOfAnswer | backend/internal/approval/rules.go:213-216 | the same for every normalised input |
| ApprovalProperties.ApproverIsLeast | backend/internal/approval/rules.go:202-205 | the approver is the least-ranked role among the riskiest rules |
| ApprovalProperties.TopIsLeast | backend/internal/approval/rules.go:194-205 | of any rule list the loop keeps one of the highest risk, and among those one of the least approver rank |
| ApprovalProperties.RiskMonotone | backend/internal/approval/rules.go:341-502 | more changes or violations, more cost, a lower threshold, exposure, production of run or workspace, a decision that asks for approval or a user who may do less never drop approval nor lower the risk |
| PolicyProjection.Project | backend/internal/policy/projection.go:88-178 | a conflict is reported exactly when two or more region rules have no region in common; otherwise the result stands for the rules, with absent and empty region lists kept apart |
| PolicyProjection.TakeRegions | backend/internal/policy/projection.go:106-129 | the running intersection, ended by an empty one |
| PolicyProjection.ProjectionMeansRules | backend/internal/policy/projection.go:15-25 | a request meets the constraints exactly when it meets every well-formed rule |
| PolicyProjection.ProjectionMeansRows | backend/internal/policy/projection.go:92-172 | a request meets the constraints exactly when it meets what every row's key and parameters ask for, and the warning is there exactly when some row has another key |
| PolicyProjection.UnrestrictedExactly | backend/internal/policy/projection.go:106-129 | the region list is absent exactly when no row restricts regions |
| PolicyProjection.ConflictMeansImpossible | backend/internal/policy/projection.go:124-127 | a conflict means no request can meet the rules |
| PolicyProjection.ProjectionOrderFree | backend/internal/policy/projection.go:88-172 | neither result nor conflict depends on the row order, tags taken as a set |
| StateBucket.Bucket.Ensure | backend/internal/statebackend/aws.go:126-157 | success leaves the bucket claimed and hardened with every foreign tag, and the four settings of a repair if it needed one, never both created and repaired; another workspace's bucket is refused and never written, whatever fails; a good bucket is not written |
| StateBucket.Bucket.EnsureTwice | backend/internal/statebackend/aws.go:126-157 | after a success a second call changes nothing, and reports neither if it succeeds |
| StateBucket.Bucket.Claim | backend/internal/statebackend/aws.go:182-213 | replaces only the two own tags, and nothing when they are right or another workspace's |
| StateBucket.LookupIsLast | backend/internal/statebackend/aws.go:182-213 | of several tags of one key the last counts |
| StateBucket.Bucket.Drifted | backend/internal/statebackend/aws.go:217-262 | an answer is drift exactly when one of the four settings is missing or wrong |
| StateBucket.Bucket.Harden | backend/internal/statebackend/aws.go:264-286 | after success all four settings are those of a repair, nothing has drifted, and the tags are as before |
| BucketPolicy.PolicyNamesSid | backend/internal/statebackend/aws.go:288-292 | the policy contains the quoted statement identifier for every partition and bucket |
| BucketPolicy.PolicyDeniesPlainText | backend/internal/statebackend/aws.go:288-292 | read back by its field names, the policy denies exactly the S3 requests on the bucket or in it that do not come over a secure transport, and allows nothing |
| LockTable.EnsureTable | backend/internal/statebackend/aws.go:302-346 | at most 32 descriptions; success means an active table with the lock schema and no other workspace's tag, and a created one is the driver's own; an existing table is not changed; a conflict means another workspace's tag |
| LockTable.LockSchemaExactly | backend/internal/statebackend/aws.go:348-358 | the lock schema is one hash key LockID whose first declaration is a string |
| LockTable.NewTableIsUsable | backend/internal/statebackend/aws.go:308-318 | a table as the driver creates it has the lock schema and no other workspace's tag |
| AgentPolicy.ValidateManifestPolicy | agent/app/policy/compliance.py:16-146 | the violations are exactly the broken rules of an enabled policy |
| AgentPolicy.CheckPolicyPreflight | agent/app/domain/drafting.py:149-162 | the collected complaints |
| AgentPolicy.DraftManifest | agent/app/domain/drafting.py:92-146 | a draft is annotated exactly when the pre-flight finds nothing |
| AgentPolicy.ChecksAgree | agent/app/domain/drafting.py:114-124 | for an enabled policy, a compliant manifest passes the pre-flight and the tag merge changes nothing |
| AgentPolicy.ChecksPartExactly | agent/app/policy/compliance.py:22-23 | the two checks part exactly for a disabled policy whose region, budget or type rule is broken |
| AgentSessions.StateStore.ListEvents | agent/app/integrations/state.py:42-48 | the events after a number are exactly the rest of the log |
| AgentSessions.StateStore.Emit | agent/app/domain/service.py:389-408 | events get the next number, so sequences are 1..n |
| AgentSessions.AgentService.RunTurn | agent/app/domain/service.py:104-230 | one turn leaves the session and the events the turn function says, and touches no other session |
| AgentSessions.AgentService.CallModel | agent/app/domain/service.py:256-311 | the reply is validated, rewritten and checked before it is accepted; a refusal fails the session |
| AgentSessions.AgentService.Close | agent/app/domain/service.py:189-230 | the closing events, draft before proposal |
| AgentSessions.AgentService.RecordAnswers | agent/app/domain/service.py:313-338 | the stored answers are the merged ones |
| AgentSessions.MergedIsLast | agent/app/domain/service.py:325-330 | merging keeps one answer per field, the last given |
| AgentRuns.ProposalsAreCompliant | agent/app/domain/service.py:211-230 | over every sequence of turns each proposed manifest directly follows its draft, under a loaded policy it complies with; a session has failed exactly when it logged a failure |
| AgentRuns.ProposedExactly | agent/app/domain/service.py:542-564 | what a turn proposes is the manifest drafted in reply to this request, in the model's region if a region was answered or named by the user or there is no default, else in the default, and otherwise unchanged |
| AgentRuns.TurnsAreClosed | agent/app/domain/service.py:104-254 | a turn completes exactly when it closes its stream, and then the last events and messages tell its envelope; any other turn fails the session exactly when it logs a failure |
| AgentRuns.RefusedExactly | agent/app/domain/service.py:256-311 | the model's part fails the session exactly for a reply that is no envelope, is for another request, asks what was answered, drafts what context or policy refuses, or reports an error |
| AgentRuns.FailedIsAbsorbing | agent/app/domain/service.py:106-107 | a failed session stays failed and logs nothing more |
| AgentRuns.PolicyIsPinned | agent/app/domain/service.py:340-356 | a loaded policy never changes |
| AgentRuns.SilentRefusalExactly | agent/app/domain/service.py:232-254 | a turn is refused with its session active and no closing event if and only if an acceptable draft breaks a region, budget or type rule of a disabled policy |
| AgentRuns.SilentRefusalHappens | agent/app/domain/service.py:232-254 | such a turn exists |
| SemVer.KeyOrderIsPrecedence | agent/app/prompts/models.py:126-149 | comparing two keys never compares a number with a string and gives the precedence of section 11 of Semantic Versioning 2.0.0 |
| SemVer.PrecedenceIsOrder | agent/app/prompts/models.py:126-149 | precedence is a strict weak order, and versions tie exactly when they differ at most in build metadata |
| SemVer.AcceptedVersions | agent/app/prompts/models.py:14-23 | a text is accepted if and only if it is a version by the grammar of Semantic Versioning and none of its prerelease identifiers mixes a leading digit with other characters |
| SemVer.ReadsParts | agent/app/prompts/models.py:14-23 | in every accepted version the numbers are those written in decimal there, each prerelease identifier the number written or the word itself, and build what follows the plus |
| SemVer.ParseBack | agent/app/prompts/models.py:14-23 | writing out what was read gives the text back |
| SemVer.TextOrder | agent/app/prompts/models.py:126-149 | comparing what two texts are read as is comparing the texts by length and character |
| SemVer.SpellingUnique | agent/app/prompts/models.py:14-23 | a version by that grammar is taken apart in one way |
| SemVer.MixedIdentifierRefused | agent/app/prompts/models.py:14-23 | 1.0.0-1a is refused although Semantic Versioning admits it |
| PromptRegistry.Registry.Load | agent/app/prompts/registry.py:21-42 | the constructor loop reports the first refused bundle, or registers all under their profiles in order |
| PromptRegistry.Build | agent/app/prompts/registry.py:21-42 | of validated bundles either the whole registry, reading versions by the pattern, or the first refusal |
| PromptRegistry.NoRefusalExactly | agent/app/prompts/registry.py:25-39 | nothing is refused exactly when slots and identifiers are all distinct |
| PromptRegistry.Registry.GetPrompt | agent/app/prompts/registry.py:44-60 | the exact version, or the first of the highest among the stable ones, or among the prereleases when none is stable; errors exactly for an unknown profile or version |
| PromptRegistry.Answer | agent/app/prompts/registry.py:44-60 | over the version texts: the one asked for, or the first registered of the highest stable text of the profile, or of the highest prerelease when none is stable |
| PromptRegistry.Latest | agent/app/prompts/registry.py:59 | the first of the highest: nothing is above it and every earlier version is below it |

## Left out

- HTTP routing, JSON decoding, authorisation headers, permissions, idempotency claims of the workspace service, logging and start-up: plumbing around the modelled steps.
- Cryptography, credentials, AWS role assumption, MCP, model, Redis and pricing calls: their results are arbitrary inputs.
- Handlers over the database as imperative methods: their steps interleave, so they are step systems; update in place inside one transaction is not shown.
- Row identifiers, creation times and UUID generation: fresh values are step parameters.
- Template texts, error messages and violation texts: only codes and which error comes first are kept, except the reasons of the approval engine.
- LoadedModule.PackedHanded: what a template prints of the data it is handed; a template is one abstract function of that data.
- LoadedModule.ModuleReadsBack: the root outputs.tf, which is one fixed text.
- Unicode: case mapping is ASCII, lengths count characters, and order is by code point.
- Floating point: costs, budgets, thresholds and confidences are reals; not-a-number and infinities are the one value NotFinite where the code checks for them.
- Duplicate JSON keys and metadata given as the bytes `null` (which the metadata writer does not survive): metadata is a map.
- ApprovalRules.WideOpenHasPath: native string lists are JSON lists here.
- DiscoveryCache.CapabilitiesHandler.Finish: time is an unbounded count of nanoseconds.
- CapabilityListing.List: the sort is unstable in the source; identifiers are primary keys, so the stable sort used here gives the same list.
- Bundling.Bundle: sorting equal logical names or equal paths does not arise, as both are proved distinct.
- Validation.Validate: error order and messages; the set of defects is exact.
- ManifestVersions.DraftReplaysExactly: the check that the requester owns the run on a replay, and the two remote validation tools, which end in one accepting or abandoning step.
- StateBackends.KeysAnsweredOnce: run existence, membership and the driver table, which only end an attempt early.
- IacArtifacts.OneArtifactPerManifest: size limits and rendering failures, which end a request like any refusal.
- LockTable.EnsureTable: cancellation is one arbitrary exit of the poll, and the wait between polls is not timed.
- AgentSessions.AgentService.RunTurn: concurrent turns on one session; the event number is read and written without a lock.
- AgentPolicy.DraftManifest: per-resource assumptions, unknowns and policy references, which no rule depends on.
- AuditChain.TailVouchesForHashed: payloads are vouched for as the text that was hashed; that a reader can rebuild this text from the JSONB column is not shown.
- Jsonb.StoredExactly: numbers too long for the database and strings with escaped zero characters, which make the insert fail like any abandoned step.
- PromptRegistry.Registry.Load: a constructor that raises is a method that reports the refusal.
- The orchestrator's run states, Azure and Google state drivers, the frontend and the archive.
