# Verification of omac's core algorithms

A Dafny model of the parts of omac (oh-my-agentic-coder) whose correctness is
hard to see from the code, with proofs of what they are for. `dafny verify
dfyconfig.toml` checks the whole project (Dafny 4.11).

| module | models |
| --- | --- |
| `Routing` | the facade's routing table: keys, owner protection, slash normalisation, path resolution |
| `ServeScan`, `ServeModel`, `ServeActivation`, `ServeProperties`, `ServeServer` | `omac serve`: directories, tokens, routes, flat aliases and sidecars over whole runs |
| `StartReload` | live reload in an `omac start` session |
| `BundleEncoding`, `SkillTree`, `SkillApproval` | what a bundle hash covers, what the document check refuses, what an approval pins |
| `SkillWalk` | the budgeted search for omac skills over folders joined by links |
| `MaskResolve` | resolving the links below a base by splicing their targets into the work list |
| `ServicePort`, `ServiceWatch`, `ProcTree` | the OpenCode service pin: reserving a port, watching it, stopping a process tree |
| `AuditTrail`, `AuditReader` | numbering and writing audit records from many callers at once, and reading torn files |
| `FlagArgs`, `FieldValues`, `BodyLimit` | argument reordering, config-field values, the request-body limit |
| `Diagnose` | the report on denied network decisions |
| `Wrappers`, `Sequences`, `Sorting` | shared helpers |

Objects that the source updates in place are classes here (`Facade`,
`Supervisor`, `DirState`, `ServeServer`, `StartReloader`, `SkillScan`, `Auditor`,
`Loopback`, `Pin`, `FieldStores`, `LimitedBody`); each of their methods is proved
to make one transition of a state on values, and the theorems are about those
states. The file system, the kernel's ports, the clock, regular expressions,
JSON, sha256 and the answers of `skillstate`, `skilltrust`, `skillsource` and
`registry` are parameters.

In `omac serve` each control operation is one step. There and in live reload
`own` names the skill a mount belongs to: skills do not share mounts, nor take
another skill's name as a mount. A skill may have several mounts over time. The
code does not check this.

## What the proofs found

Some promises hold only under a condition. The code is modelled as it is; each
case has a lemma with an input that shows it, or the exact condition.

- Serve can lose a sidecar. When a skill serves under its own name, its
  `omac.yaml` then asks for another mount and registering it fails, the stub that
  replaces its entry hides a sidecar that keeps running, past deactivation
  (`ServeProperties.LeakyRunLeaves`). A re-discovery loses nothing exactly when
  this does not happen to any found skill (`ServeScan.RetryLosesNothing`), and
  loading the global layer loses nothing exactly when no live mount is repeated
  (`ServeScan.LayerLosesNothing`). Every other statement about sidecars counts
  the lost ones.
- In the same case the flat alias of the skill is left alone: it keeps forwarding
  to the old port while the skill is down, and after the next successful
  re-activation the flat path leads to the old port and the token path to the new
  one (`ServeProperties.StaleAlias`). No other operation makes an alias untrue
  (`ServeProperties.MirrorsIff`), and the next new activation or deactivation
  repairs it.
- `resolveBelow` promises not-ok on a link loop, and otherwise the path with the
  links below base resolved. Three cases break this, each also for a loop. When
  a target uses ".." after a name, it joins the names as text: its answer holds
  no link, but may be another place than the system's
  (`MaskResolve.UpAfterName`, `MaskResolve.UpAfterNameLoop`). After a link to a
  folder above base it keeps the rest as it is written, links and loops included
  (`MaskResolve.LinkToAncestor`, `MaskResolve.LinkToAncestorLoop`). A name
  directly below base that begins with ".." counts as outside base and is kept
  too, with all that follows it (`MaskResolve.NameBeginsWithDots`,
  `MaskResolve.DottedLoop`). Without targets of the first kind, every path that
  leads somewhere is answered right exactly when no link leads from below base
  to a folder above it and no link behind such a name leads anywhere
  (`MaskResolve.AllRightIff`); some loop is answered ok exactly when there is a
  loop and a link of the second kind, or a loop behind such a name
  (`MaskResolve.LoopAnsweredIff`).
- `unhashedSkillDoc` says it reports anything a harness could load as a SKILL.md
  that the hash leaves out. A special file of that name, such as a FIFO, is
  neither hashed nor reported (`SkillTree.SpecialDocEscapes`).
- `omacSkillDirs` never lists a skill folder that was itself searched as a root
  before (`SkillWalk.SkillScan.Scan`: `roots` and the result are disjoint), not
  even when a later root leads to it (`SkillWalk.RootedSkillMissed`).
- A root of `omacSkillDirs` that runs out of budget is reported, but the folders
  it had entered stay marked as searched. `SkillWalk.CompleteAccounts` promises
  a later root nothing behind them. This cannot happen when fewer folders than
  the budget are reached from each root (`SkillWalk.SmallRootsFit`).
- A torn audit record takes the next record with it, so a missing number can
  also mark an intact write after a torn one (`AuditTrail.MissingMarksFailed`). A
  last record that lacks only its newline is still read.
- `reorderFlagsFirst` drops the "--" it stops at, so the advice in its comment,
  to pass "--" before a positional that starts with "-", does not work
  (`FlagArgs.DashesDropped`).
- `limitedBody` is described as failing once more than the limit has been read.
  It also fails a body of exactly the limit, unless the reader below reports the
  end together with the last byte (`BodyLimit.ExactLimit`).
- `ValidateValue` is described as refusing a stored value that violates the
  schema; for bool and int fields it accepts every string
  (`FieldValues.LaunchIsWeaker`).
- A live reload says nothing, not even in the manifest, about a registered skill
  whose sidecar fails to spawn, although its comments call that silence the bug
  that was fixed (`StartReload.UnreportedIff`).
- A live reload can leave the stub of a deregistered skill behind: one at a
  mount the skill had before its `omac.yaml` broke or asked for another mount
  (`StartReload.StaleStub`), one from a refusal at launch
  (`StartReload.StaleRefusal`), or one of two entries of the same name, which
  the registry allows for different harnesses (`StartReload.TwinStub`).
  `StartReload.ReloadStray` and `StartReload.LeaverKeepsStubIff` say exactly
  when, for any registry.
- When two entries of one name have the same mount and one of them is refused at
  launch, the skill runs but its route says it is broken, in either order
  (`StartReload.RefusedTwin`), and no reload changes that: from launch on,
  exactly the skills with an entry refused at their mount do not answer
  (`StartReload.SessionInStep`).
- With shared mounts, pruning can remove the route of a mounted skill for good
  (`StartReload.SharedMount`).

## Model

| member | source | states |
|---|---|---|
| Routing.RouteKeyInjective | internal/facade/facade.go:104-113 | slash-free namespaces and mounts with the same route key are the same pair |
| Routing.RouteKeyParts | internal/facade/facade.go:108-113 | a route key is cut into its namespace and mount at its first slash, and has one exactly when the namespace is not empty |
| Routing.ReplaceDoublesShrinks | internal/facade/facade.go:463-468 | one replacement round on a path with a double slash makes it shorter, so the handler's loop ends |
| Routing.CollapseAbsorbs | internal/facade/facade.go:463-468 | a replacement round does not change the one-pass collapse of slash runs |
| Routing.NormalizePath | internal/facade/facade.go:459-468 | the loop ends with the one-pass collapse of the path, which has no double slash |
| Routing.ResolveRefines | internal/facade/facade.go:596-628 | looking a path up in the string-keyed index gives what the lookup by namespace and mount gives |
| Routing.ResolveRoundTrip | internal/facade/facade.go:596-628 | a path written for a route and a remainder resolves to both exactly when no more specific namespaced route takes it |
| Routing.ResolveCases | internal/facade/facade.go:606-628 | every path of two segments or more: the namespaced route of the first two takes it with what follows them, else the flat route of the first with all the rest, else it is unknown; a path may end at the mount |
| Routing.ResolveOne | internal/facade/facade.go:606-628 | a path of one segment leads to the flat route of that name or nowhere; a path without a first segment has no route |
| Routing.DispatchReaches | internal/facade/facade.go:459-498 | a request path with any doubled slashes reaches the live route it was written for, with its remainder, exactly unless a built-in endpoint or a more specific route takes it |
| Routing.DispatchCases | internal/facade/facade.go:459-520 | the three built-in endpoints and the status page answer exactly their own paths, a route that is not ready answers itself, and only a ready one forwards |
| Routing.Facade.AddRoute | internal/facade/facade.go:227-243 | adds or replaces the route under its key, unless a different owner holds it |
| Routing.OwnerProtected | internal/facade/facade.go:231-243 | a route with an owner is never replaced by one with another owner; any other is, and nothing else changes |
| Routing.Facade.RemoveRoute | internal/facade/facade.go:245-251 | removes that route and no other |
| Routing.Facade.UpstreamPort | internal/facade/facade.go:261-271 | the route's upstream port, 0 without a route |
| Routing.Facade.Lookup | internal/facade/facade.go:606-628 | resolves a path against the routes added so far |
| ServeScan.ScanKeeps | internal/cli/serve.go:1583-1696 | bringing up discovered skills keeps entries and routes of the namespace in step, failures included |
| ServeScan.ScanTouches | internal/cli/serve.go:1440-1508 | a scan changes entries and routes only at mounts of the skills it found |
| ServeScan.ScanShows | internal/cli/serve.go:1386-1499 | after a first scan or a retry every found skill of the directory has an entry and a route where it is mounted (its own name when its omac.yaml or its registration is broken, else its mount), both with the state and port of its outcome; one not of the directory, or serving already, is as before |
| ServeScan.LayerShows | internal/cli/serve.go:1277-1301 | at each mount of the global layer the last skill brought up there shows its state and port |
| ServeScan.ScanCounts | internal/cli/serve.go:1583-1696 | a scan changes the surplus of running sidecars over ready entries by exactly the sidecars it loses |
| ServeScan.ScanLocal | internal/cli/serve.go:1583-1696 | a scan starts and loses sidecars of its own namespace only |
| ServeScan.DistinctLosses | internal/cli/serve.go:1440-1508 | with distinct skills a scan loses nothing exactly when no found skill on its own would |
| ServeScan.RetryLosesNothing | internal/cli/serve.go:1440-1508 | a re-discovery accounts for every sidecar exactly when no found skill is serving under its own name, asks for a mount where nothing serves, and fails to register |
| ServeScan.FirstLosesNothing | internal/cli/serve.go:1332-1433 | a first activation never loses a sidecar |
| ServeScan.LayerLosesNothing | internal/cli/serve.go:1268-1303 | loading the global layer accounts for every sidecar exactly when no live mount is repeated |
| ServeModel.DoKeeps | internal/cli/serve.go:1268-1516 | every activation, re-activation, deactivation, reload and global reload, failed ones included, keeps directories, tokens, entries, namespaced routes and aliases in step |
| ServeModel.RunConsistent | internal/cli/serve.go:1332-1433 | in every reachable state the token map is the inverse of the directory map, and the namespaced routes are exactly those of the entries of active directories and the global layer |
| ServeModel.DoCounts | internal/cli/serve.go:1583-1696 | an operation adds to the unaccounted sidecars exactly those it loses |
| ServeModel.RunCounts | internal/cli/serve.go:2095-2115 | over every run the tracked sidecars are the ready entries plus those lost on the way |
| ServeActivation.ActivationShows | internal/cli/serve.go:1360-1431 | after a successful activation of a new directory every skill found for it is mounted with the state and port of its outcome, one waiting for credentials included, nothing else is mounted, and the directory is active exactly when all its skills serve |
| ServeActivation.ActivationFails | internal/cli/serve.go:1351-1383 | a directory that is no directory or not allowed changes nothing; one that cannot be scanned stays visible without skills, and the aliases are gone |
| ServeActivation.ReactivationShows | internal/cli/serve.go:1440-1516 | after a re-activation every skill of the directory that was not serving shows its new outcome, one that was serving and every mount that is not of a found skill is as before, and the phase says whether all serve |
| ServeActivation.ReactivationFails | internal/cli/serve.go:1442-1454 | a re-activation whose scan fails changes nothing but that the token counts as handed out |
| ServeActivation.GlobalsShow | internal/cli/serve.go:1309-1327 | after a global reload each mount of the layer shows the last skill brought up there, and nothing is mounted that was not found |
| ServeActivation.GlobalsFail | internal/cli/serve.go:1309-1327 | when the registry cannot be loaded the layer is empty, its routes and sidecars are gone and everything else stays |
| ServeActivation.RunPhases | internal/cli/serve.go:1421-1427 | in every reachable state a directory is active exactly when all its skills serve, partly active when one does not, and activating only while nothing is mounted |
| ServeProperties.DeactivateLeavesNothing | internal/cli/serve.go:2095-2115 | after any run, deactivating a directory leaves no route under its token, and of its sidecars only those lost earlier |
| ServeProperties.Isolation | internal/cli/serve.go:1332-1516 | no operation touches skills, routes or sidecars of a directory or layer it does not concern |
| ServeProperties.AliasStep | internal/cli/serve.go:1440-1508 | an operation that does not rebuild the aliases leaves their set alone, and a true alias stays true exactly unless a re-activation puts a stub in the place of its skill |
| ServeProperties.RefreshedAll | internal/cli/serve.go:1838-1875 | rebuilding the aliases leaves exactly the ready skills of the only active directory with one |
| ServeProperties.MirrorsIff | internal/cli/serve.go:1826-1884 | when every alias copies the route of a ready skill of the only active directory, an operation changes that exactly when it does not rebuild the aliases and puts a stub in the place of the skill of one |
| ServeProperties.RunMirrors | internal/cli/serve.go:1826-1884 | over every run an alias copies the route of a ready skill of the only active directory, unless its own skill was displaced since the aliases were rebuilt last |
| ServeProperties.FlatPathAgrees | internal/cli/serve.go:1826-1884 | for such an alias the flat path and the token path lead to the same upstream with the same remainder, whatever else was lost; only a namespace called like the mount can take the flat path away |
| ServeProperties.ActivateUndone | internal/cli/serve.go:1332-1433 | activating a new directory, even in vain, and deactivating it restores everything but the aliases, which are rebuilt |
| ServeProperties.TokenHandedOnce | internal/cli/serve.go:1888-1925 | over a whole run each drawn token appears in at most one answer |
| ServeProperties.AnswerHasToken | internal/cli/serve.go:1897-1923 | once an activation is answered with a manifest, the token of the directory has been handed out, then or before |
| ServeProperties.LeakyRunLeaves | internal/cli/serve.go:1440-1508 | a legal run of two activations and a deactivation that ends without directories but with a sidecar |
| ServeProperties.StaleAlias | internal/cli/serve.go:1440-1508 | a legal run of three activations after which the token path leads to port 5000 and the flat path to port 4000 |
| ServeServer.Supervisor.StopSidecar | internal/supervisor/supervisor.go:162-185 | removes the first tracked child of the name, if there is one, and nothing else; the others keep their places |
| ServeServer.WithoutFirstAt | internal/supervisor/supervisor.go:165-176 | what comes before the first child of the name and what comes after it stay in order |
| ServeServer.ServeServer.BringUp | internal/cli/serve.go:1605-1696 | for how far the skill got: its entry, its route if its owner may take it, and a sidecar exactly when it is live |
| ServeServer.Assess | internal/cli/serve.go:1600-1695 | how far a skill gets: credentials are read exactly for unchanged, approved files, a sidecar is started exactly when they are complete and the snapshot can be read, and it is live exactly when that succeeds |
| ServeServer.ServeServer.ScanDir | internal/cli/serve.go:1440-1508 | the loop over discovered skills makes the scan of the model, skills that serve already left alone on a retry |
| ServeServer.ServeServer.MirrorEntries | internal/cli/serve.go:1850-1870 | copies exactly the ready entries with an upstream as flat routes, in any order of the map |
| ServeServer.ServeServer.ClearFlatAliases | internal/cli/serve.go:1877-1884 | drops exactly the flat routes of the recorded aliases |
| ServeServer.ServeServer.RefreshSingleDirAliases | internal/cli/serve.go:1838-1870 | rebuilds the aliases: those of the only active directory, or none |
| ServeServer.ServeServer.Deactivate | internal/cli/serve.go:2095-2115 | takes the directory off both maps, tears its skills down and rebuilds the aliases |
| ServeServer.ServeServer.Rediscover | internal/cli/serve.go:1440-1516 | retries the skills that are not serving and updates the directory's phase |
| ServeServer.ServeServer.Activate | internal/cli/serve.go:1332-1433 | known, forbidden, failing and new directories each make the model's activation; it fails exactly for a new directory that is none, is not allowed or cannot be scanned, and answers with the token exactly when the model hands it out |
| ServeServer.ServeServer.ReloadGlobals | internal/cli/serve.go:1309-1326 | drops the global layer and loads it again, also when loading fails half way |
| ServeServer.ServeServer.Reload | internal/cli/serve.go:2046-2066 | a reload is a deactivation followed by an activation, fails exactly when that does and hands out its token |
| StartReload.AttemptKeeps | internal/cli/start_reload.go:439-547 | whatever one registered skill comes to in a reload, and whichever of its mounts it is at, maps and routes stay in step, mounted skills keep their routes and a newly mounted one answers |
| StartReload.PruneKeeps | internal/cli/start_reload.go:195-216 | pruning keeps exactly the not-ready skills still registered, forgets what was reported of the others, and takes exactly the stub routes recorded for them |
| StartReload.ReloadKeeps | internal/cli/start_reload.go:385-548 | a reload keeps mounted and not-ready apart, changes no mounted skill's route, makes every newly mounted skill answer, and leaves only registered skills not ready |
| StartReload.ReloadShows | internal/cli/start_reload.go:439-546 | a skill not mounted before a reload is afterwards what the entry that decides makes of it, its first spawned entry or, when none spawns, its last that does not fail to spawn: mounted with a ready route to the port of the new process, or not ready with a stub route of port 0 and its reason |
| StartReload.ReloadLeaves | internal/cli/start_reload.go:439-442 | a reload changes nothing of a mounted skill, nor of one whose entries all fail to spawn |
| StartReload.RunKeeps | internal/cli/start_reload.go:385-548 | over every run of reloads the mounted set only grows, its routes stay, and the mounted skills that do not answer are the same as at the start |
| StartReload.LaunchInStep | internal/cli/start.go:670-693 | the session a launch starts with is in step, and a mounted skill does not answer exactly when another entry was refused at its mount |
| StartReload.LaunchPorts | internal/cli/start.go:670-693 | at launch a skill is mounted exactly when it was spawned, and one that answers does so at the port of the last entry spawned at its mount |
| StartReload.SessionInStep | internal/cli/start.go:732-740 | from launch on, after any reloads of any registries, the maps and the routes agree, and exactly the mounted skills with an entry refused at their mount at launch do not answer |
| StartReload.SessionPorts | internal/cli/start_reload.go:533-540 | in every session a skill is mounted exactly when it was spawned at launch or in some reload, and one that answers does so at the port of the process that mounted it: the last entry spawned at its mount at launch, else the first in the first reload that spawned any |
| StartReload.RefusedTwin | internal/cli/start.go:669-693 | two entries of one name at one mount, one spawned and one refused: the skill is mounted and its route is broken, in either order |
| StartReload.UnreportedIff | internal/cli/start_reload.go:525-534 | the registered names a reload leaves out of the manifest are exactly those it did not know before and all of whose entries fail to spawn |
| StartReload.AttemptAllStray | internal/cli/start_reload.go:439-547 | bringing up any list of entries leaves a stray route at a mount exactly when its skill is put at another mount last and this one had a route or was used on the way, or when it was stray and the skill is not put anywhere |
| StartReload.ReloadStray | internal/cli/start_reload.go:385-548 | the same for a whole reload, pruning included |
| StartReload.LeaverKeepsStubIff | internal/cli/start_reload.go:192-216 | a skill that left the registry unmounted still has a route after a reload exactly when one of its routes was stray before |
| StartReload.StaleStub | internal/cli/start_reload.go:460-467 | waiting at one mount, then broken at its own name, then deregistered: the first stub stays |
| StartReload.StaleRefusal | internal/cli/start.go:691-693 | refused at launch and then deregistered: the stub stays |
| StartReload.TwinStub | internal/cli/start_reload.go:439-547 | two entries of one name waiting at two mounts: the first stub is stray at once and stays when both are deregistered |
| StartReload.PruneSparesIff | internal/cli/start_reload.go:195-216 | a mounted skill's route survives pruning exactly when no skill that leaves has its mount |
| StartReload.SharedMount | internal/cli/start_reload.go:195-216 | a run in which pruning takes the route of a mounted skill, which no later reload brings back |
| StartReload.StartReloader.WarnOnce | internal/cli/start_reload.go:218-233 | reports a reason exactly when it is not the last one reported for the skill |
| StartReload.StartReloader.PruneNotReady | internal/cli/start_reload.go:195-216 | drops the not-ready state, the warnings and the stub routes of skills that left the registry |
| StartReload.StartReloader.Bring | internal/cli/start_reload.go:439-547 | one skill's stub, refusal, silent failure or mounting, by how far it gets |
| StartReload.StartReloader.ReloadNow | internal/cli/start_reload.go:387-548 | prunes, then attempts each registered skill in order |
| StartReload.StartReloader.Manifest | internal/cli/start_reload.go:327-383 | each mounted or not-ready skill once, in order of name, with its mount, state and reason; a line says what its route answers exactly unless the skill is one that never answered |
| BundleEncoding.DecodeEncode | internal/config/meta.go:691-796 | the byte string decodes to its list of paths and sums, although the raw sums may hold NUL |
| BundleEncoding.EncodeInjective | internal/config/meta.go:691-796 | record lists with the same encoding are equal |
| BundleEncoding.SortedUnique | internal/config/meta.go:778-796 | two lists sorted by path with the same records are equal |
| BundleEncoding.Sort | internal/config/meta.go:778-796 | the collected records, in strict order of path |
| BundleEncoding.DigestInput | internal/config/meta.go:778-796 | the digest input is the encoding of the sorted records, whatever order the walk met them in |
| BundleEncoding.InputDecidesRecords | internal/config/meta.go:691-796 | two walks give the same input exactly when they collected the same records |
| SkillTree.SkillDocNotExcluded | internal/config/meta.go:834-846 | no spelling of SKILL.md is an excluded file name |
| SkillTree.SkillDocIff | internal/cli/skill_content.go:335-349 | the names taken for SKILL.md are exactly the eight-character names that spell it, each letter small, capital or, for K, the Kelvin sign (and the long s for S) |
| SkillTree.EverySpelling | internal/cli/skill_content.go:335-349 | each of the letters of SKILL.md may be small or capital |
| SkillTree.ExcludedFileIff | internal/config/meta.go:834-846 | the excluded file names are three names, and any non-empty stem with one of four endings |
| SkillTree.HashExact | internal/config/meta.go:723-777 | the hash takes in exactly the readable files with no excluded name on their path |
| SkillTree.HashReads | internal/config/meta.go:723-777 | a hash that succeeds has read every such file |
| SkillTree.HashSucceedsIff | internal/config/meta.go:738-782 | the hash succeeds exactly when every folder outside excluded ones can be listed, every file there that is not excluded can be read, and nothing there called omac.yaml is anything but a file or a folder |
| SkillTree.VisitExact | internal/cli/skill_content.go:310-361 | the document walk reports nothing exactly when every folder lists, every SKILL.md is a file outside excluded folders and every folder link stays inside; what it reports violates that |
| SkillTree.FirstDecides | internal/cli/skill_content.go:320-361 | the walk ends with what the first entry that is not in order gives |
| SkillTree.FollowStays | internal/cli/skill_content.go:310-361 | when nothing is reported, following folder links never leads outside the skill |
| SkillTree.LoaderSeesOnlyHashed | internal/cli/skill_content.go:310-361 | when nothing is reported and the hash succeeds, every SKILL.md, in any letter case, that a loader reaches by listing and following links is in the hash, special files excepted |
| SkillTree.SpecialDocEscapes | internal/cli/skill_content.go:333-359 | a special file called SKILL.md is neither hashed nor reported |
| SkillApproval.JoinInjective | internal/config/meta.go:691-796 | the joined path of a record determines its names |
| SkillApproval.WalkHash | internal/config/meta.go:723-777 | the walk collects what the hash covers, or stops at the first failure |
| SkillApproval.BundleInput | internal/config/meta.go:723-796 | the digest input of a tree |
| SkillApproval.WalkDocs | internal/cli/skill_content.go:320-361 | the first finding of the document walk |
| SkillApproval.NothingPlanted | internal/cli/skill_content.go:320-361 | when the document walk reports nothing, no name that spells SKILL.md in any letter case is a link or lies below a folder the hash leaves out, and no folder link leads outside |
| SkillApproval.SkillContentRefusal | internal/cli/skill_content.go:285-308 | which refusal is given, and acceptance exactly for a regular omac.yaml, nothing uncovered, a hash that succeeds and an approved digest; an accepted tree holds no link spelled like SKILL.md, no such file below an excluded folder and no folder link that leads outside |
| SkillApproval.SameInputSameFiles | internal/config/meta.go:691-796 | two trees give the same digest input exactly when their covered files agree, path by path, up to sums |
| SkillApproval.ApprovalPinsDocs | internal/cli/skill_content.go:285-308 | without a digest collision, two trees accepted under one approval offer a loader the same SKILL.md files with the same sums |
| SkillWalk.CompleteAccounts | internal/cli/skill_content.go:188-259 | after a complete search every skill reachable without passing another is in the result, below a result, below a folder reported as one that cannot be listed, itself a root, below a root that ran out of budget, or behind a folder left when one did |
| SkillWalk.FolderDoneFromPath | internal/cli/skill_content.go:199-242 | searching a folder under one path searches it under all, so the shared visited set loses nothing |
| SkillWalk.CompleteGrows | internal/cli/skill_content.go:243-256 | what was searched for earlier roots stays searched |
| SkillWalk.SkillScan.Walk | internal/cli/skill_content.go:202-242 | the closure ends on every link graph; each unit of budget goes to a folder entered for the first time and reached from the root, what it reports cannot be listed, and ok means the folder and all below it are accounted for |
| SkillWalk.SkillScan.VisitEntry | internal/cli/skill_content.go:214-240 | one entry is skipped, recorded or descended into, and is accounted for; new reports below it are folders that cannot be listed |
| SkillWalk.SkillScan.ScanRoot | internal/cli/skill_content.go:243-256 | one root is searched with its own budget; only it can run out now, which is reported and means that as many folders as the budget allows were reached from it |
| SkillWalk.SkillScan.Scan | internal/cli/skill_content.go:188-259 | the search is complete; each result is an omac skill reached from a root without passing another, listed once and no root; each report is true: a folder reached from a root that cannot be listed, or a root that exhausted its budget, and only folders entered for such a root are left; each result has the kind of a source that leads to it; the result comes in order of folder |
| SkillWalk.DirectChildFound | internal/cli/skill_content.go:267-276 | a folder directly in a searched root that has an omac.yaml or a name the store knows, even without either file, is in the result or a searched root, unless the root cannot be listed |
| SkillWalk.ResultsNeedCheck | internal/cli/skill_content.go:267-279 | a result without omac.yaml has a name the store knows and, when nested, a SKILL.md |
| SkillWalk.UnlistedIsTold | internal/cli/skill_content.go:203-214 | every folder entered and every root that exists is listed or reported, unless its budget ran out |
| SkillWalk.NothingAbandoned | internal/cli/skill_content.go:243-256 | when no root exhausted its budget, no folder is left |
| SkillWalk.SmallRootsFit | internal/cli/skill_content.go:252-262 | a root from which fewer folders than the budget are reached is never given up |
| SkillWalk.ScanFindsAll | internal/cli/skill_content.go:188-259 | when no root ran out of budget, every skill on a route of real folders from a source is in the result, below a result or below a folder that really cannot be listed and is reported, or is itself a searched root |
| SkillWalk.RootedSkillMissed | internal/cli/skill_content.go:188-259 | a skill that was searched as a root before is reached from a later root and not in the result |
| MaskResolve.JoinRel | internal/cli/skill_content.go:118-124 | joining a base with the relative path to a clean path gives that path |
| MaskResolve.UnderIff | internal/cli/skill_approval.go:257-266 | the containment test holds exactly for the base and for paths below it whose next name does not begin with ".." |
| MaskResolve.ResolveBelow | internal/cli/skill_content.go:118-162 | the loop ends, links that grow the work list included, with the resolver's answer |
| MaskResolve.ResolveAgrees | internal/cli/skill_content.go:118-162 | with ".." only at the front of targets the loop keeps what the path denotes for a resolver that takes one step at a time, with any number of hops to spare |
| MaskResolve.AnswerAgrees | internal/cli/skill_content.go:118-162 | an ok answer denotes the place the path denotes, and not-ok means the reference finds none |
| MaskResolve.AnswerRightIff | internal/cli/skill_content.go:118-162 | an ok answer is that place exactly when no component of it below base is a link |
| MaskResolve.AnswerUndotted | internal/cli/skill_content.go:118-162 | when moreover no reachable link leads above base, an answer without a dotted name directly below base is where the path leads, and holds no link |
| MaskResolve.ResolveExact | internal/cli/skill_content.go:118-162 | when no link behind such a name leads anywhere either, a path leads to a place exactly when that is the answer and holds no link |
| MaskResolve.AnswerFixed | internal/cli/skill_content.go:118-162 | a path without links, and without a dotted name directly below base, is its own answer |
| MaskResolve.BelowSettled | internal/cli/skill_content.go:126-161 | whatever the links are, an answer given below base holds no link below base |
| MaskResolve.AllRightIff | internal/cli/skill_content.go:118-162 | for any base and any paths: all that lead somewhere are answered right exactly when no link in a folder below base leads above base and none behind a dotted name directly below base leads anywhere; all paths whatever are, when in place of the second only plain places lie behind such names |
| MaskResolve.DotFreeRightIff | internal/cli/skill_content.go:118-162 | among paths and links without dotted names, climbing links are the one cause of wrong answers and of answered loops |
| MaskResolve.LoopAnsweredIff | internal/cli/skill_content.go:111-117 | some link loop is answered ok exactly when there is one and a climbing link, or one behind a dotted name directly below base |
| MaskResolve.AnswerWithoutLimit | internal/cli/skill_content.go:111-113 | without climbing links an undotted answer holds for a resolver with any larger limit |
| MaskResolve.UpAfterName | internal/cli/skill_content.go:147-149 | a target with ".." after a link resolves to a different place than the reference's |
| MaskResolve.UpAfterNameLoop | internal/cli/skill_content.go:147-149 | with such a target a loop is answered ok |
| MaskResolve.LinkToAncestor | internal/cli/skill_content.go:150-153 | after a link to a folder above base the rest is kept with a link in it |
| MaskResolve.LinkToAncestorLoop | internal/cli/skill_content.go:150-153 | after such a link a loop is answered ok |
| MaskResolve.NameBeginsWithDots | internal/cli/skill_content.go:130-134 | a link whose name begins with ".." is answered unresolved |
| MaskResolve.DottedLoop | internal/cli/skill_content.go:130-134 | such a link to itself is answered ok |
| ServicePort.HostServicePorts | internal/cli/opencode_v2_service.go:279-302 | collects the ports of the two config folders and of the state folder over the default one |
| ServicePort.HostPortsAre | internal/cli/opencode_v2_service.go:279-302 | the host's ports are the default and every positive configured or registered one, at most four; the registration gives the reason first, then the later config folder, then the earlier, then the default |
| ServicePort.ReserveServicePort | internal/cli/opencode_v2_service.go:128-167 | the first pick outside the host's ports when skipped picks stay bound, or what the forced text gives, check by check; on return only the returned listener is open |
| ServicePort.PickPort | internal/cli/opencode_v2_service.go:145-166 | each pick is asked for while all skipped ones are bound, and after the loop only the returned listener is open |
| ServicePort.PickedInTime | internal/cli/opencode_v2_service.go:151-166 | if the kernel hands out no bound port, one try more than there are host ports settles it: a port, or a pick that the kernel refused |
| ServicePort.FifthTryAtLatest | internal/cli/opencode_v2_service.go:151-166 | with at most four host ports the "no free port" error is never reached, and five tries do what sixteen do |
| ServicePort.CheckServicePortFree | internal/cli/opencode_v2_service.go:172-185 | which error, if any, one from closing included, and no listener left open |
| ServicePort.Pin.Release | internal/cli/opencode_v2_service.go:56-63 | closes the held listener once; a second call does nothing |
| ServicePort.Pin.HandOff | internal/cli/opencode_v2_service.go:65-73 | lets go of the port and succeeds exactly when it is then free and not the host's, and the probe closes without an error |
| ServicePort.PinService | internal/cli/opencode_v2_service.go:77-102 | a failure leaves no listener open, a pin holds the listener of its port, which is none of the host's; which port or failure it is, for every forced or picked port; without a forced port a pin is refused only when the kernel refuses a pick or the configuration cannot be written |
| ServiceWatch.WatchIsShort | internal/cli/opencode_v2_service.go:333-367 | a watch that goes on has lasted at most window, grace and two gaps between polls |
| ServiceWatch.TakenIff | internal/cli/opencode_v2_service.go:347-355 | the remembered time decides whether the port answered unproven without a break for the grace time |
| ServiceWatch.VerdictMeans | internal/cli/opencode_v2_service.go:337-366 | a poll proves the service exactly when the pinned port is registered and proves itself, reports a wrong port exactly when another is registered, reports the port taken exactly when neither holds and unproven answers came without a break for the grace time, and gives up only when cancelled or silent after the window; otherwise there is no verdict |
| ServiceWatch.VerifyService | internal/cli/opencode_v2_service.go:325-367 | whatever the port does, the watch ends within window, grace and two gaps, at the first poll that gives a verdict: proven exactly when that poll shows the pinned port registered and proving itself, wrong port exactly when it shows another, taken exactly after an unbroken grace time of unproven answers, quiet only when cancelled or silent after the window; no poll before was of any of these kinds |
| ServiceWatch.RefusalJustified | internal/cli/opencode_v2_service.go:325-332 | "taken" needs unproven answers at every poll across at least the grace time |
| ProcTree.Children | internal/cli/proctree.go:76-81 | the children of each process in any parent map, self-parents left out |
| ProcTree.Descendants | internal/cli/proctree.go:74-98 | for every parent map, cycles included: exactly the processes below root, root excluded, once each, parents first |
| ProcTree.Freeze | internal/cli/proctree.go:107-120 | stops exactly the processes seen below root in a scan, once each; scans until one shows nothing new, five at most |
| ProcTree.StopSandboxTree | internal/cli/proctree.go:107-132 | the signals in order, after scans up to the first that shows nothing new: each seen process stopped once, then killed once, then the group of root; root itself is never signalled alone |
| AuditTrail.RunAccounts | internal/audit/audit.go:120-145 | in every interleaving of Emit calls each number up to the counter is written, left unwritten or on its way, and only one of these; at most one warning and one fatal call |
| AuditTrail.RunModes | internal/audit/audit.go:129-170 | in every interleaving a strict auditor stops the program exactly when a write failed and any other never does; the one warning comes exactly when an event did not marshal or, when not strict, a write failed |
| AuditTrail.RunOwn | internal/audit/audit.go:121-143 | in every interleaving each number on its way or in the file comes with the event of the call that took it |
| AuditTrail.NumbersDistinct | internal/audit/event.go:132-136 | the written numbers are distinct until the 64-bit counter comes round |
| AuditTrail.MissingMarksFailed | internal/audit/audit.go:120-145 | once no call is on its way, a number is missing for the reader exactly when its event did not marshal, or its write was torn or joined to a torn one |
| AuditTrail.NothingMissing | internal/audit/audit.go:120-145 | without failures the reader gets every number from 1 on, each event once, in the order of the writes, without an error |
| AuditTrail.Auditor.TakeNumber | internal/audit/event.go:132-136 | the next number, by an atomic increment that wraps at 64 bits |
| AuditTrail.Auditor.Write | internal/audit/sink_file.go:42-56 | appends what the file system accepts of the record and its newline, and warns or stops once when that is not all |
| AuditTrail.Auditor.Emit | internal/audit/audit.go:120-145 | takes one number and writes it, or leaves it unwritten with a warning |
| AuditReader.ReadLog | internal/audit/read.go:36-74 | the decodable lines in order, and the first bad one that is not last; nothing at all when a line reaches 4 MiB |
| AuditReader.TrimMeans | internal/audit/read.go:43-46 | trimming takes exactly the white space around a text, that of Unicode included, and leaves nothing of a blank line |
| AuditReader.ReadsIntact | internal/audit/read.go:36-74 | what the reader returns for a file with torn records anywhere: exactly the records that start a line and reach its end, in file order; an error exactly when a line that joins a torn record to a later one has something after it |
| FlagArgs.TokenAgrees | internal/cli/flagutil.go:90-112 | on every token the flag package can read, the bool test and the "=" test agree with it |
| FlagArgs.ReorderFlagsFirst | internal/cli/flagutil.go:68-89 | flags with the values they take along, then the positionals |
| FlagArgs.SplitMeans | internal/cli/flagutil.go:67-89 | up to the first "--" the flags and the values they absorb come first and all else after them, both in their order; what follows "--" stays at the end and the "--" goes |
| FlagArgs.FlagsKept | internal/cli/flagutil.go:44-89 | when values follow their flags, the flags brought to the front give the same settings in the same order, or the same error, whatever follows them |
| FlagArgs.ReorderPreserves | internal/cli/flagutil.go:44-89 | reordering before a parser that stops at the first positional equals parsing flags anywhere before "--", exactly unless the first positional looks like a flag |
| FlagArgs.OnlyAfterStop | internal/cli/flagutil.go:68-89 | such a positional can only come after "--" |
| FlagArgs.DashesDropped | internal/cli/flagutil.go:66-76 | "--" followed by a token like "-x" is read as an unknown flag |
| FieldValues.ParseFormat | internal/cli/register.go:1062-1067 | printing a 64-bit integer and parsing it gives it back, both bounds included |
| FieldValues.ParseIntMeans | internal/cli/register.go:1062-1067 | digits after a sign or none are the number they write, when it fits in 64 bits |
| FieldValues.ParseIntOnly | internal/cli/register.go:1062-1067 | nothing else is a number |
| FieldValues.BoolWords | internal/config/meta.go:660-669 | six words for true and six for false, each letter small or capital and with white space around them, and no others |
| FieldValues.IntWords | internal/cli/register.go:1062-1067 | white space around an integer does not matter; it is stored as printed |
| FieldValues.CanonicalSettles | internal/cli/register.go:1027-1072 | for every spec Validate accepts, what register makes of any input passes the launch check and is its own canonical form |
| FieldValues.LaunchIsWeaker | internal/config/meta.go:157-182 | the launch check accepts whatever register would store; it is exact for strings and enums and accepts everything for bool and int |
| FieldValues.DefaultRefusedIff | internal/config/meta.go:463-512 | the default of an accepted spec is refused at the prompt exactly when it is a string its pattern rejects |
| FieldValues.Prompt | internal/cli/register.go:956-1025 | the prompt ends at the first line that decides, or with the third |
| FieldValues.PromptMeans | internal/cli/register.go:975-1027 | the first decisive line gives its canonical value, the default or a refusal of it, or a skip; after three that decide nothing the prompt gives up |
| FieldValues.PromptSettles | internal/cli/register.go:956-1025 | what the prompt stores is canonical and passes the launch check, and only an optional field is skipped |
| FieldValues.ChooseMeans | internal/cli/register.go:860-957 | the order of the sources: what is stored unless fields are asked again, an override over it, an earlier refusal of an optional field, a remembered default that fits, the file, the environment, and the prompt with the default it may offer |
| FieldValues.FieldStores.HandleOneField | internal/cli/register.go:835-1025 | which source a value comes from, in order; what is stored is canonical, and refusals and skips store nothing |
| BodyLimit.LimitedBody.Read | internal/facade/facade.go:1245-1258 | one read through the limit, and what is left of it |
| BodyLimit.ReadMany | internal/facade/facade.go:1245-1258 | any number of reads on one body give the replies, the bytes and the remaining limit that the statements below are about |
| BodyLimit.GivesPrefix | internal/facade/facade.go:1236-1258 | any reads over any reader return a prefix of the body no longer than the limit |
| BodyLimit.FailsForever | internal/facade/facade.go:1245-1248 | once the limit is used up every read fails with nothing read |
| BodyLimit.ShortUnchanged | internal/facade/facade.go:1245-1258 | a body shorter than the limit passes unchanged |
| BodyLimit.LongRefused | internal/facade/facade.go:1245-1258 | a longer body is never seen to end; the read that reaches the limit fails |
| BodyLimit.ExactLimit | internal/facade/facade.go:1253-1256 | a body of exactly the limit is seen to end only when its end comes with its last byte |
| Diagnose.Blocked | internal/diagnose/diagnose.go:117-141 | one record a denied host with everything it was denied, in a stable order by falling count |
| Diagnose.BlockedExact | internal/diagnose/diagnose.go:117-141 | exactly the hosts with a denial, once each, with all their denials and each port and named source once; by falling count, ties in first-seen order |
| Diagnose.RecordMeans | internal/diagnose/diagnose.go:119-137 | a record counts all denials of its host and holds each of their ports and named sources once |
| Diagnose.FirstsInOrder | internal/diagnose/diagnose.go:120-131 | hosts, ports and sources stand in the order in which they came up |
| Diagnose.CountsAddUp | internal/diagnose/diagnose.go:100-114 | the counts of all hosts add up to the number of denials |
| Diagnose.ProblemsThenAdvisories | internal/diagnose/diagnose.go:171-176 | the stable sort gives the problems, then the advisories, each in the order found |
| Diagnose.Analyze | internal/diagnose/diagnose.go:145-178 | a blocked network alone; else the hosts by falling count, the other problems, the advisories |
| Diagnose.Build | internal/diagnose/diagnose.go:100-218 | totals that the blocked hosts account for; for each of these, in order, the hint that an allow rule is overridden, else that a deny rule names it, else that no rule does, before the other problems and the advisories |
| Sorting.StableUnique | internal/diagnose/diagnose.go:139 | order and kept ties determine the result of a stable sort |
| Sorting.LessMeans | internal/config/meta.go:786 | one path comes before another when it ends where they still agree or has the smaller byte at the first difference |

## Left out

- HTTP serving, reverse proxying, upgrades, the SKILL.md page at a mount's root and the per-route body and idle limits: input and output around the modelled decisions.
- Finer interleavings in `omac serve` and in live reload: the alias check and its installation are not under one lock there, so the invariants are about whole operations.
- Fields of routes and entries that no decision reads (folder, detail texts, missing credentials) and the rendering of manifests and warnings.
- `skillstate`, `skilltrust`, `skillsource`, `registry` and merging registries: their answers are arbitrary inputs of each step.
- sha256, JSON, YAML and regular expressions: functions with the properties stated where they are used.
- SkillWalk.ScanFindsAll: the routes go through folders with a real path; a name in a broken link chain leads nowhere.
- ServeServer.ServeServer.BringUp: how far a skill gets is a parameter here; ServeServer.Assess says what decides it.
- Diagnose.Analyze: which rule, source and environment hints there are is a parameter; only their order is modelled.
- AuditTrail.Auditor.Emit: redaction, time stamps and the syslog mirror do not change which records reach the file.
- ProcTree.StopSandboxTree: signals to processes that are gone, or to reused pids, look like any other.
- FieldValues.Prompt: texts shown at the prompt.
- `maskTargets` around the resolver: it also asks the system for the fully resolved path, and drops answers whose last component is a link.
- Races of the file system with the walks and the resolver (a link that changes between two looks at it).
- `SidecarMeta.Validate` beyond config fields: independent checks of single values.
- Keychain, launcher configuration, sandbox arguments, command dispatch and all user-interface commands.
