# Verified model of the AWS provider plugin's stateful core

This Dafny project models the parts of the plugin that hold state while they drive or
reconcile an outside system whose calls can fail, and proves what they keep, restore and
converge to.

- **Deploy driver** (`EcsCloud`, `Deploy`, `ECSDeployDriver`, `DeploySafety`, `DeployCycles`,
  `DeployCanary`, `DeployReach`, `DeployRules`, `DeployScripts`): blue/green and canary deploys over services,
  target groups and listener weights.
- **State store** (`ObjectStore`, `StateStore`, `StateListing`, `SavedStates`,
  `S3IaCStateStore`, `LockProtocol`): states and locks as objects in a bucket, for any number of interleaved
  clients.
- **Reconcilers** (`Config`, `Policies`, `AutoScaling`, `Reconciliation`, `Diffing`, `Printing`,
  `PrintedLists`, `Fingerprints`, `LoneFingerprints`, `FooledDiffs`, `LiveDiffs`,
  `PolicyConfigs`, `AutoScalingGroupDriver`; `Iam`, `IAMDriver`):
  scaling policies and attached role policies brought to what a configuration asks for.
- **Planner and in-memory provider** (`MockStore`, `MockResourceDriver`, `Planner`,
  `AWSProvider`): plans, drivers over a heap of cloned outputs, and planning again.
- **Job runner** (`JobLogs`, `Runner`, `JobNames`): the token-paged log pump and the bounded
  job name.

`Wrappers`, `Text`, `Sorting` and `Mapping` are shared helpers.

## How the outside world is modelled

A cloud, bucket, log service or sink is a value that carries an oracle, a function from call
numbers to outcomes. A property stated for all such values ranges over every pattern of
failing calls. Each driver is a class with the original's fields, loops and early returns; it
holds a client object whose methods are single calls. Every driver method is proved equal to
a function of the old world (`Deploy.CreateGreen`, `AutoScaling.SyncPolicies`, `Iam.Update`,
...), and the theorems are lemmas about these functions and about runs of them. What an
operation does is also stated apart from its function: the deploy driver's operations as the
performance of fixed lists of calls (`DeployScripts`), the policies that are put in terms of
the configuration's own keys (`PolicyConfigs`), the log that is delivered by its text.

Assumptions about the services:

- A call that fails has no effect. A call on a service, group, policy or target that does not
  exist fails, except that deleting a missing S3 object succeeds and that a scaling policy can
  be put on a target that is not registered: that no run leaves one there is the driver's doing.
- Creating a target group under a taken name may answer with the existing group, make another
  group of that name, or fail; an answer may also be empty although the group was made. Nothing prevents deleting a group the
  listener still names, so safety must come from the driver and its callers.
- Conditional PUT is atomic: If-None-Match with the wildcard (section 13.1.2 of RFC 9110),
  answered by 412 (section 15.5.13) when the object exists.
- Registering a scalable target sets its capacity and role together; without a role in the
  configuration the role is the empty one.
- A listing of scaling policies fails or is complete, in any order. A listing of attached role
  policies fails or names any part of them.
- Encoding a state as JSON and decoding it gives it back; `encodable` says whether JSON can
  express it.

## What the proofs found

- Requiring that the last listener change was a successful `SwitchTraffic` does not make
  `DestroyBlue` safe: after a promotion the listener is on the new stable group and stays
  there while further greens are created, and some outcome of another `DestroyBlue` then
  leaves the listener on a group that is gone (`DeploySafety.PromotionNeedsFreshSwitch`). The
  exact conditions for `DestroyBlue` and `DestroyCanary`, which have no guard for them, are
  `DestroyBlueSafeIff` and `DestroyCanarySafeIff`.
- A caller that only sees its calls' results is safe if it destroys blue only after a green
  was created that no later call promoted, and traffic was then switched and not moved since;
  and destroys a canary only if every call that gave one traffic was followed by a successful
  switch or promotion, or else if the restore inside that very call succeeds
  (`DeployRules.ObeyingIsSafe`, `SwitchedIff`, `RoutedIff`).
- `SwitchTraffic` looks only at the green group, which `CreateGreen` remembers before it creates
  the service, so it can route everything to a group without a service
  (`DeployReach.SwitchReachesServiceIff`).
- `DestroyBlue` cannot be resumed: when its service is deleted and the group's deletion fails,
  no sequence of operations ever lets it succeed (`HalfDestroyedForever`). `DestroyCanary`, in
  contrast, can (`DeployCanary.TeardownResumes`).
- Promotion needs the stable service: after a `DestroyBlue` that failed at the group it can no
  longer succeed, though a canary is there and every call is answered
  (`DeployScripts.PromotionCompletesIff`).
- `RoutePercent` does not bound its argument; the weights are proper exactly when the low 32
  bits lie in 0..100 (`SplitWeights`).
- `Unlock` has no owner check. A foreign unlock breaks the protocol whenever its check passes and
  the lock object is still there for its delete, and then admits a second holder (`LockProtocol.ForeignUnlockSafeIff`,
  `ForeignUnlockAdmitsSecondHolder`).
- The comments on `Diff` and `policyConfigFingerprint` (drivers/autoscaling_group.go:235-239
  and 396-399) say that changes to target values and step adjustments are detected. The code
  prints targets to the hundredth and steps without their interval bounds, and compares no
  role: after 5.0 was applied, 5.001 shows no change, and so does a bound added to a step.
  When no change is shown, applying the spec would still change something exactly when the
  role, a target's exact value or an interval bound differs (`LiveDiffs.QuietDiffIff`). The
  diff can be relied on exactly over policies without interval bounds whose targets are whole
  hundredths (`LiveDiffs.DiffTellsLiveIff`).
- Even what is printed can be confused, by policies that `Create` and `Update` accept. Diff
  tells apart what is printed of configurations' policies exactly when their strings avoid ':',
  or '|', or every digit, or 'S' together with 'T' or '.' (`FooledDiffs.DiffTellsIff`). By
  itself, over policies of any type, the fingerprint tells them apart exactly when the strings
  avoid '|', and with it ':', or else '?', 'S' and one of 'T', '.' and all digits
  (`LoneFingerprints.AloneTellsIff`).
- Two identities print alike only if one has a '|' in some part (`AutoScaling.IdentityUniqueIff`).
  With one in namespace or resource, `Update` under a ProviderID acts on another target than
  `Read` and `Delete` do, and `Delete` does not undo `Create` (`Reconciliation.UpdateKeepsIdentity`,
  `CreateThenDelete`).
- The output of `Read` carries no fingerprint, so a spec that declares policies always differs
  from it (`Diffing.DiffAfterRead`).
- A capacity beyond 31 bits is truncated, so a spec then differs from its own output
  (`Diffing.DiffAfterConverge`).
- IAM `Update` takes a failed listing for an empty one and still reports success; it converges
  exactly when every unwanted policy was listed (`Iam.UpdateConvergesIff`).
- `Plan` never emits a delete, although its comment says so. It can return plans that cannot be
  applied, such as the creation of a resource whose type has no driver
  (`Planner.UnknownTypeIsPlanned`); exactly which is `Planner.PlanAppliesIff`.

## Model

| member | source | states |
|---|---|---|
| ECSDeployDriver.Driver.constructor | drivers/deploy.go:98-119 | a new driver manages the configured service and stable group, with no green and no canary |
| ECSDeployDriver.Driver.Update | drivers/deploy.go:134-157 | registers a revision for the stable service and moves the service to it; the fields stay |
| ECSDeployDriver.Driver.CurrentImage | drivers/deploy.go:187-210 | two reads of the stable service's image; no field, and of the cloud only the call log, changes |
| ECSDeployDriver.Driver.CreateGreen | drivers/deploy.go:231-284 | fields and cloud after each of its three calls succeeds or fails: the group is remembered before the service exists |
| ECSDeployDriver.Driver.SwitchTraffic | drivers/deploy.go:287-308 | refused without a green group; otherwise one listener change to green alone |
| ECSDeployDriver.Driver.DestroyBlue | drivers/deploy.go:312-341 | scales down (ignoring failure), deletes service then group, and promotes green only if both are gone |
| ECSDeployDriver.Driver.CreateCanary | drivers/deploy.go:354-404 | fields and cloud after each of its three calls succeeds or fails |
| ECSDeployDriver.Driver.RoutePercent | drivers/deploy.go:407-429 | one listener change with both weights truncated to 32 bits |
| ECSDeployDriver.Driver.PromoteCanary | drivers/deploy.go:459-505 | image lookup, update, restore and teardown, stopping at the first failure |
| ECSDeployDriver.Driver.DestroyCanary | drivers/deploy.go:508-528 | restore whose failure is ignored, then teardown; nothing to do without a canary |
| ECSDeployDriver.Driver.DestroyCanaryResources | drivers/deploy.go:530-555 | each remembered canary resource is forgotten exactly when its deletion succeeds |
| DeploySafety.DisciplinedRunsSafe | drivers/deploy.go:134-555 | on every run, whichever calls fail, the listener names only existing groups and the stable group exists, if DestroyBlue runs only on a drained blue and DestroyCanary only on a canary that its restore drains |
| DeploySafety.ApplyKeepsInv | drivers/deploy.go:134-555 | every allowed operation, succeeding or failing anywhere, keeps the invariant behind that |
| DeploySafety.PromoteCanaryKeepsInv | drivers/deploy.go:459-505 | promotion keeps it with no condition on the caller |
| DeploySafety.DestroyBlueSafeIff | drivers/deploy.go:312-341 | exactly when DestroyBlue is safe against every outcome of its calls |
| DeploySafety.DestroyCanarySafeIff | drivers/deploy.go:508-555 | exactly when DestroyCanary, which ignores a failed restore, is safe against every outcome |
| DeploySafety.PromotionNeedsFreshSwitch | drivers/deploy.go:231-341 | after SwitchTraffic and a safe DestroyBlue, any number of CreateGreen calls leaves the listener on the stable group alone, and some outcome of another DestroyBlue then leaves it on a group that is gone |
| DeploySafety.HalfDestroyedForever | drivers/deploy.go:312-341 | once the blue service is gone and not promoted over, no run of operations lets DestroyBlue succeed |
| DeploySafety.DestroyBlueCompletableIff | drivers/deploy.go:312-341 | DestroyBlue can succeed exactly while the blue service exists |
| DeployCycles.CurrentImageIsStable | drivers/deploy.go:187-210 | a reported image is the one the stable service runs, it is reported whenever the two calls are answered, and only the call log changes |
| DeployCycles.CycleSwaps | drivers/deploy.go:231-341 | a successful cycle replaces the service and its group, if it had one, and touches no other |
| DeployCycles.CyclesEnd | drivers/deploy.go:187-341 | after n successful cycles: base name and n "-green" suffixes, one managed service and group, all weight on that group, stable image the last deployed, everything else as before |
| DeployCycles.CyclesEndWithOne | drivers/deploy.go:231-341 | starting from one service and at most the stable group, exactly one of each is left |
| DeployCycles.CyclesNeverCollide | drivers/deploy.go:231-341 | the growing names never collide: if the calls go through, any number of cycles succeeds |
| DeployCanary.SplitWeights | drivers/deploy.go:407-429 | a successful call puts the percentage on the canary and the rest on stable; the weights are percentages summing to 100 exactly when the low 32 bits of the argument are at most 100 |
| DeployCanary.RoutesMoveOnlyListener | drivers/deploy.go:407-429 | any sequence of RoutePercent calls changes nothing but the listener |
| DeployCanary.CanaryRound | drivers/deploy.go:354-555 | create, route in any way, then promote or destroy: services and groups as before, all traffic on stable, stable image the canary's or unchanged |
| DeployCanary.PromoteDeletesOnlyAfterRestore | drivers/deploy.go:459-505 | the call log shows no deletion before the successful listener change |
| DeployCanary.PromoteCanaryBalances | drivers/deploy.go:459-555 | deletions made plus deletions owed stay the same list |
| DeployCanary.DestroyCanaryBalances | drivers/deploy.go:508-555 | the same, and success is reported exactly when nothing is owed |
| DeployCanary.TeardownResumes | drivers/deploy.go:459-555 | over any number of attempts no deletion that succeeded is repeated, none is dropped, and the number owed never rises |
| DeployCanary.CanaryFieldsOrdered | drivers/deploy.go:354-404 | on every run a set canary service name implies a set canary group |
| DeployReach.RunTidy | drivers/deploy.go:134-555 | on every disciplined run the green and canary the driver remembers exist under their own names |
| DeployReach.ActiveServiceExists | drivers/deploy.go:121-128 | on every disciplined run the service health checks look at exists |
| DeployReach.TeardownCompletes | drivers/deploy.go:508-555 | on every disciplined run a teardown whose calls succeed leaves nothing owed |
| DeployReach.SwitchReachesServiceIff | drivers/deploy.go:231-308 | a successful switch leads to a group with a service behind it exactly when the creation before it succeeded or had been answered with a group already backed |
| DeployRules.ObeyingIsDisciplined | drivers/deploy.go:231-555 | a caller that goes by its calls' results, with the restore inside DestroyCanary as the one alternative, keeps both rules about the cloud, and what it has noted is so |
| DeployRules.ObeyingIsSafe | drivers/deploy.go:231-555 | so its runs keep the listener on existing groups, the stable group existing, and a service to check |
| DeployRules.SwitchedIff | drivers/deploy.go:231-341 | what such a caller must have seen before DestroyBlue: a green created and not promoted since, then traffic switched and not moved since |
| DeployRules.RoutedIff | drivers/deploy.go:287-528 | when such a caller must take a canary to have traffic: after a call that gave it some, with no successful switch or promotion since |
| DeployScripts.OperationPerformsScript | drivers/deploy.go:134-555 | every operation that is not refused makes the calls of a fixed list, with all arguments and in order, stops at the first failure that counts, and succeeds exactly if there is none; a refused one makes no call |
| DeployScripts.FieldsFollowCalls | drivers/deploy.go:231-555 | a created group is remembered once it is made, a created service once all is done, green becomes stable only when a DestroyBlue is done, and no other operation touches these fields |
| DeployScripts.SucceedsIff | drivers/deploy.go:134-555 | with every call answered each operation succeeds exactly when what it is about exists, or for a creation when service name and ARN are free |
| DeployScripts.CurrentImagePerforms | drivers/deploy.go:187-210 | the two reads are of the stable service and of its own task definition |
| DeployScripts.UpdateRuns | drivers/deploy.go:134-157 | after success the stable service runs the given image and no other service has changed; after failure none has |
| DeployScripts.PromotionMovesImageFirst | drivers/deploy.go:459-505 | whatever fails: if promotion moved the listener or deleted anything, the stable service runs the canary's image; otherwise the canary is still remembered and no service or group is gone |
| DeployScripts.PromotionCompletesIff | drivers/deploy.go:459-505 | on every disciplined run whose remaining calls are answered, promotion succeeds exactly when a canary service is remembered and the stable service exists |
| StateStore.SanitizeForgets | internal/statebackend/s3.go:72-76 | two ids sanitise alike exactly when they differ only in which of '/', '\', '_' stands where |
| StateStore.KeyLayout | internal/statebackend/s3.go:72-76 | a key is the prefix, the id with '/' and '\' replaced by '_', and '.json' or '.lock' |
| StateStore.KeysInjective | internal/statebackend/s3.go:196-203 | distinct sanitised ids have distinct keys, and no state key is a lock key |
| StateStore.SharedKeys | internal/statebackend/s3.go:72-76 | two ids share a lock key exactly when they share a state key |
| StateStore.OperationRefinesTable | internal/statebackend/s3.go:206-386 | each operation on the bucket is the operation on a map of states and a set of locks, or reports a call unanswered and changes nothing |
| StateStore.RunRefinesTable | internal/statebackend/s3.go:206-386 | on every run every reply is the table's reply or a report of an unanswered call |
| StateStore.GetReturnsLastSaved | internal/statebackend/s3.go:206-258 | GetState after any run returns the last state saved and not deleted under any id with the same sanitised form |
| SavedStates.SavedStatesAreListed | internal/statebackend/s3.go:233-312 | after any run on an unused prefix, a complete listing whose calls are answered returns, once per name, what was last saved under it and not deleted since, if it matches the filter, and nothing else |
| S3IaCStateStore.Store.constructor | internal/statebackend/s3.go:177-186 | an empty prefix becomes the default one |
| S3IaCStateStore.Store.GetState | internal/statebackend/s3.go:206-230 | one GET; a missing object is no state and no error |
| S3IaCStateStore.Store.SaveState | internal/statebackend/s3.go:233-258 | refuses nil, nameless and unencodable states before any call; otherwise one PUT |
| S3IaCStateStore.Store.DeleteState | internal/statebackend/s3.go:315-337 | HEAD then DELETE of the state object |
| S3IaCStateStore.Store.Lock | internal/statebackend/s3.go:341-360 | one conditional PUT of the lock object |
| S3IaCStateStore.Store.Unlock | internal/statebackend/s3.go:363-386 | HEAD then DELETE of the lock object |
| S3IaCStateStore.Store.ListStates | internal/statebackend/s3.go:262-312 | the loops over pages and objects return the decoded states of the keys the listing keeps, and change no object |
| StateListing.MatchesFilter | internal/statebackend/s3.go:83-101 | the loop over filter entries, in any order, decides the three honoured keys and ignores others |
| StateListing.ListStatesExact | internal/statebackend/s3.go:262-312 | for any paging: only decodable matching states under the prefix, each once, never a lock; all of them when every call is answered |
| StateListing.ListingCalls | internal/statebackend/s3.go:262-312 | a listing fails exactly if a page's own listing goes unanswered; otherwise it makes one call per page and readable key and returns the kept keys whose fetch was answered, whatever happened to the others |
| StateListing.MatchesIff | internal/statebackend/s3.go:83-101 | a filter keeps a state exactly if both agree on each of type, provider and status that the filter names |
| StateListing.FilterTwice | internal/statebackend/s3.go:83-101 | filtering by a union of compatible filters is filtering by both in turn, and unknown keys have no effect |
| LockProtocol.NextKeeps | internal/statebackend/s3.go:206-386 | every single S3 call of any client keeps the protocol's invariant |
| LockProtocol.LockProtocolSafe | internal/statebackend/s3.go:341-386 | for any number of clients interleaving at single calls: at most one holder per lock object, a lock object exactly while somebody holds or releases it, and no lost update |
| LockProtocol.HolderReleases | internal/statebackend/s3.go:363-386 | a holder whose two calls are answered removes its lock object and nothing else |
| LockProtocol.WriteRoundCompletes | internal/statebackend/s3.go:206-386 | a client that finds the lock free and gets answers locks, reads, writes and unlocks: its state is saved, recorded as computed from the one it found, and nothing else has changed |
| LockProtocol.ForeignUnlockSafeIff | internal/statebackend/s3.go:363-386 | a foreign unlock, with any calls of the protocol's clients between its HEAD and its DELETE, is harmless exactly when the HEAD failed, the DELETE went unanswered, or the lock object was gone by then |
| LockProtocol.ForeignUnlockAdmitsSecondHolder | internal/statebackend/s3.go:341-386 | after a foreign unlock a second client takes a lock still held |
| Config.StringSlice | drivers/helpers.go:52-71 | the strings of a list property in order, skipping other values |
| Config.StringsKept | drivers/helpers.go:60-67 | what is read of a list is the strings at all places that hold one, in their order |
| Config.StringsAre | drivers/helpers.go:52-71 | which strings a property has, for either type of list and none |
| Config.DiffSlice | drivers/helpers.go:90-102 | the elements of the first list missing from the second, in order |
| Config.WithoutIs | drivers/helpers.go:90-102 | which elements those are, and that none is repeated if none was |
| Config.TruncateIs | drivers/helpers.go:31-32 | a float is cut towards zero, by less than one |
| Config.ToInt32Wraps | drivers/autoscaling_group.go:332-332 | the conversion to int32 wraps by multiples of 2^32 |
| Config.DiffOutputs | drivers/helpers.go:74-87 | one change, with the value found and the value wanted, for each key whose desired value is absent or printed differently |
| Policies.StepAdjustments | drivers/autoscaling_group.go:576-596 | the inner parsing loop: every step, or an error at the first malformed one |
| Policies.ParsePolicies | drivers/autoscaling_group.go:536-604 | the parsing loop with its checks in order: the policies, or the first error |
| Policies.ParseIsAllOrNothing | drivers/autoscaling_group.go:536-604 | parsing fails exactly if some entry is malformed, named or not; otherwise the policies are the named entries in order |
| PolicyConfigs.FirstFaultIsReported | drivers/autoscaling_group.go:536-604 | the error is the first fault, in the order of the checks, of the first malformed entry |
| PolicyConfigs.AcceptedIff | drivers/autoscaling_group.go:68-350 | with calls answered, Create succeeds exactly for three identity strings, a capacity in order, and well-formed entries of which each named one is complete for its type; Update also needs its ProviderID to be the three joined |
| PolicyConfigs.LiveSaysConfig | drivers/autoscaling_group.go:476-664 | after success, target and role are the configuration's, and the live policy of each name has, field by field, what the last entry of that name has under the field's own key; a name without entry has no policy |
| PolicyConfigs.FingerprintSaysConfig | drivers/autoscaling_group.go:400-428 | the fingerprint is, for the named entries sorted by name, the text of each one's own keys in the three formats, joined by the bar |
| Policies.HundredthsRound | drivers/autoscaling_group.go:413-415 | the printed target is the nearest hundredth |
| Policies.HundredthsSpelled | drivers/autoscaling_group.go:413-415 | sign, digits, a point and two digits, spelling the count of hundredths |
| Sorting.LeqIsOrder | drivers/autoscaling_group.go:406-408 | the order is that of strings: a prefix first, else the first difference |
| Text.IntTextSpells | drivers/autoscaling_group.go:413-422 | a printed number spells its value, after a sign if it is negative |
| Policies.PrintInjective | drivers/autoscaling_group.go:410-426 | the three formats never print different policies alike, for strings free of the two separators |
| Policies.FingerprintDecides | drivers/autoscaling_group.go:400-428 | over policies of any type whose strings avoid both separators, equal fingerprints mean equal policies up to order on every printed field, and conversely for distinct names |
| LoneFingerprints.AloneTellsIff | drivers/autoscaling_group.go:400-428 | without the names, over policies of any type, equal fingerprints mean equal policies up to order on every printed field exactly when the strings avoid the bar, and with it ':', or else '?', 'S' and one of 'T', '.' and all digits |
| PrintedLists.SameFromFront | drivers/autoscaling_group.go:400-428 | if strings avoid ':', or the bar, or every digit, lists of policies of known types with the same print and the same joined names are the same in every printed field |
| PrintedLists.SameByHeads | drivers/autoscaling_group.go:400-428 | the same if strings avoid 'S' together with 'T' or '.' |
| Fingerprints.SeparatorsFoolFingerprint | drivers/autoscaling_group.go:400-428 | for any type and numbers, two policies and the same two with their strings exchanged print alike under the same names |
| AutoScaling.ProviderIDRoundTrip | drivers/autoscaling_group.go:352-365 | an identity decodes to itself exactly when namespace and resource are free of the separator |
| AutoScaling.ProviderIDPrintsBack | drivers/autoscaling_group.go:352-365 | whatever decodes encodes back to the same string |
| AutoScaling.IdentityUniqueIff | drivers/autoscaling_group.go:352-356 | no other identity prints alike exactly when none of the three parts shows the separator |
| Reconciliation.LastEntryWins | drivers/autoscaling_group.go:502-507 | of entries with one name the last decides the policy |
| Reconciliation.DeleteStaleEffect | drivers/autoscaling_group.go:488-500 | the stale deletions touch only listed policies that are not desired, and all of them on success |
| Reconciliation.PutAllEffect | drivers/autoscaling_group.go:502-508 | the upserts remove nothing, add only what is asked for, and on success all of it |
| Reconciliation.PutsInOrder | drivers/autoscaling_group.go:502-508 | the upserts made are those of the first policies of the list, all of them exactly on success |
| Reconciliation.DeletesBeforePuts | drivers/autoscaling_group.go:488-508 | while a stale policy that was listed is left, nothing has been put |
| Reconciliation.SyncConverges | drivers/autoscaling_group.go:476-509 | on success exactly the desired policies are live |
| Reconciliation.SyncNeverOvershoots | drivers/autoscaling_group.go:476-509 | however it ends, what was live and desired is still there and nothing outside old or desired appears; malformed policies cause no call |
| Reconciliation.RunsLeaveNoOrphans | drivers/autoscaling_group.go:68-233 | over every run of Create, Update and Delete no policy exists on an unregistered target |
| Reconciliation.DeleteEffect | drivers/autoscaling_group.go:203-233 | a successful Delete removes the target and all its policies and nothing else |
| Reconciliation.ConvergeEffect | drivers/autoscaling_group.go:68-200 | what a successful Create or Update leaves registered and live |
| Reconciliation.ConvergeSucceedsIff | drivers/autoscaling_group.go:68-200 | with its calls answered and the listing complete it succeeds exactly for a valid capacity, a policy list that parses, and policies complete for a known type |
| Reconciliation.UpdateKeepsIdentity | drivers/autoscaling_group.go:150-200 | under a ProviderID an update registers the target that prints so and no other, or makes no call; that target is the one the ProviderID decodes to exactly when namespace and resource are free of the separator |
| Reconciliation.CreateThenDelete | drivers/autoscaling_group.go:68-233 | Create of a new target and a successful Delete by the returned ProviderID restore targets and policies exactly when namespace and resource are free of the separator, and then the Delete succeeds if its calls are answered |
| Reconciliation.DeleteCompletesIff | drivers/autoscaling_group.go:203-233 | a Delete whose calls are answered succeeds exactly when the ProviderID decodes to a registered target with a namespace |
| Diffing.DiffAfterConverge | drivers/autoscaling_group.go:240-294 | a spec shows no change against its own output exactly when its capacity fits an int32 |
| Diffing.DiffAfterRead | drivers/autoscaling_group.go:114-143 | against Read output it shows none exactly when it declares no policies and its capacity fits |
| Diffing.DiffIgnoresOrder | drivers/autoscaling_group.go:240-294 | for distinct names the verdict does not depend on the order of the policies |
| Diffing.ReportedChanges | drivers/autoscaling_group.go:277-293 | a reported change is one of the five compared values under its own name, with the value found and the value wanted, and these differ |
| Fingerprints.DiffExact | drivers/autoscaling_group.go:240-294 | if enough is avoided, a spec shows no change against the output of another exactly when the printed identity, the capacity and what is printed of the policies agree |
| FooledDiffs.FooledDiff | drivers/autoscaling_group.go:240-294 | otherwise there are two configurations, both accepted, whose policies differ in what is printed and whose diff shows no change |
| FooledDiffs.DiffTellsIff | drivers/autoscaling_group.go:240-294 | so the condition on the avoided characters is exact for telling apart what is printed |
| LiveDiffs.AskedAgreeIff | drivers/autoscaling_group.go:608-664 | lists that print the same policies put the same policies exactly when those of one name have the same exact target and the same interval bounds |
| LiveDiffs.ReapplyIff | drivers/autoscaling_group.go:68-200 | applying one configuration after another for the same target changes nothing registered or live exactly when both demand the same target and policies |
| LiveDiffs.NoChangeIff | drivers/autoscaling_group.go:240-294 | if enough is avoided, a spec demands what was applied, within an int32, exactly when no change is shown and identity, role, parsing, exact targets and interval bounds agree |
| LiveDiffs.QuietDiffIff | drivers/autoscaling_group.go:235-294 | when no change is shown, applying the spec changes nothing exactly when role, exact targets and interval bounds agree |
| LiveDiffs.DiffTellsLiveIff | drivers/autoscaling_group.go:235-294 | for one target, if enough is avoided, no change shown means the same policies put exactly over configurations without interval bounds whose targets are whole hundredths; with either allowed, two accepted configurations refute it whatever is avoided, short of every character |
| AutoScalingGroupDriver.SortStrings | drivers/autoscaling_group.go:247-264 | sorts the name list in place |
| AutoScalingGroupDriver.SortedPrint | drivers/autoscaling_group.go:406-427 | sorting the policies before printing prints what sorting the printed fields would |
| AutoScalingGroupDriver.Driver.DesiredPolicyNames | drivers/autoscaling_group.go:464-471 | the names in order, none if the policies do not parse |
| AutoScalingGroupDriver.Driver.PolicyConfigFingerprint | drivers/autoscaling_group.go:400-428 | the sorting and printing loop computes the fingerprint |
| AutoScalingGroupDriver.Driver.SyncPolicies | drivers/autoscaling_group.go:476-509 | the two loops make the calls of the reconciliation, in order, up to the first failure |
| AutoScalingGroupDriver.Driver.PutOnePolicy | drivers/autoscaling_group.go:608-664 | an incomplete policy is refused before its call |
| AutoScalingGroupDriver.Driver.Create | drivers/autoscaling_group.go:68-110 | the cloud and output of a creation, whichever call fails |
| AutoScalingGroupDriver.Driver.Update | drivers/autoscaling_group.go:150-200 | the same for an update, refused on an identity mismatch |
| AutoScalingGroupDriver.Driver.Delete | drivers/autoscaling_group.go:203-233 | policies first, then the target, stopping at the first failure |
| AutoScalingGroupDriver.Driver.Read | drivers/autoscaling_group.go:114-143 | the registered target and the listed names, without a fingerprint |
| AutoScalingGroupDriver.Driver.Diff | drivers/autoscaling_group.go:240-294 | the changes reported, each with the value found and the value wanted; the current output's own name list is left sorted |
| IAMDriver.Driver.Read | drivers/iam.go:94-135 | the role's outputs; a failed listing leaves the policies out instead of failing |
| IAMDriver.Driver.Update | drivers/iam.go:137-176 | trust policy, read, attach loop, detach loop and read, stopping at the first failure |
| Iam.UpdateCalls | drivers/iam.go:137-176 | what an update did to the role is exactly its logged calls: attaches of desired unlisted policies, then detaches of listed undesired ones, none if and only if both sets agree or it stopped before |
| Iam.UpdateKeepsWanted | drivers/iam.go:137-176 | at every point of that history the attached set lies between old-and-desired and old-or-desired |
| Iam.UpdateReconciles | drivers/iam.go:137-176 | success leaves the desired policies and those the listing hid |
| Iam.UpdateConvergesIff | drivers/iam.go:137-176 | success means the desired set exactly when every unwanted policy was listed |
| Iam.AttachedAsConfigured | drivers/iam.go:137-176 | with a complete listing a policy is attached after success exactly if the configuration names it |
| Iam.UpdateSucceedsIff | drivers/iam.go:137-176 | with calls answered an update succeeds exactly if the role exists |
| Iam.UpdateSetsTrust | drivers/iam.go:138-146 | success has set the trust policy the configuration gives, if any, and otherwise kept it |
| Iam.ReadReports | drivers/iam.go:94-135 | what a read reports of the role under each output key |
| Iam.UpdateAgainIsQuiet | drivers/iam.go:137-176 | with complete listings a second run attaches and detaches nothing |
| Iam.HiddenPolicyStays | drivers/iam.go:118-128 | a failed listing lets an unwanted policy survive a successful update |
| MockStore.RunWellKept | provider/mock_driver.go:28-133 | through any run each resource is filed under its name, is running, and shows replicas, desired and running count alike |
| MockStore.NamesAreIndependent | provider/mock_driver.go:28-110 | what a name holds is decided by the operations on that name alone |
| MockStore.CompletedAgreesIff | provider/mock_driver.go:70-133 | a created or updated resource agrees with its config exactly when the config's computed keys are absent or right |
| MockStore.CompletedMeans | provider/mock_driver.go:114-133 | the outputs are the config with a running status and the replicas it asks for, or one, in three counts |
| MockStore.ScaledMeans | provider/mock_driver.go:96-110 | scaling sets the three counts to the number given and keeps all else |
| MockResourceDriver.CloneResourceOutput | provider/mock_driver.go:135-143 | a new object with a new map and the same contents |
| MockResourceDriver.Driver.OutputFromSpec | provider/mock_driver.go:114-133 | a new object whose map is the config completed with status and counts; the config is not written |
| MockResourceDriver.Driver.Create | provider/mock_driver.go:28-35 | stores the resource; the returned object and map are new and not part of the store |
| MockResourceDriver.Driver.Read | provider/mock_driver.go:37-46 | a copy that shares nothing with the store |
| MockResourceDriver.Driver.Update | provider/mock_driver.go:48-60 | replaces an existing resource, under the reference's name |
| MockResourceDriver.Driver.Delete | provider/mock_driver.go:62-68 | removes the name and nothing else; a missing name is no error |
| MockResourceDriver.Driver.Scale | provider/mock_driver.go:96-110 | all three counts set, the rest of the resource kept |
| MockResourceDriver.Driver.Diff | provider/mock_driver.go:70-86 | an update is needed exactly when some config key is absent or different in the outputs |
| MockResourceDriver.FieldChanges | provider/mock_driver.go:75-85 | one change for each such key, with old and new value, for any order of the keys |
| MockResourceDriver.TamperAndRead | provider/mock_driver.go:28-46 | writing to a passed config or a returned output changes no later Read |
| Planner.IndexNames | provider/provider.go:279-282 | the index holds exactly the listed names |
| Planner.IndexIsLast | provider/provider.go:279-282 | of states with one name it holds the last |
| Planner.PlanMeaning | provider/provider.go:289-325 | planning fails exactly for a listed spec whose type has no driver, and otherwise yields the action of each spec that needs one |
| Planner.PlannedActions | provider/provider.go:289-325 | the actions are for the specs that need one, in order: a create with no state and no changes for a name not listed, else an update with the state found and exactly the keys absent from its outputs or different there; never a delete |
| Planner.ReplanIsEmptyIff | provider/provider.go:274-328 | for distinct names, whenever a plan exists and can be applied, planning again after it is empty exactly when every config acted on is one the store can satisfy |
| Planner.ApplySucceedsIff | provider/provider.go:289-325 | actions on distinct names can be applied exactly when each has a driver and what it updates is in that driver's store |
| Planner.PlanAppliesIff | provider/provider.go:274-328 | a plan for distinct names can be applied exactly when every spec it acts on has a type with a driver and, if listed, is in its store |
| Planner.UnknownTypeIsPlanned | provider/provider.go:289-297 | a spec of unknown type is planned for creation and cannot be created |
| AWSProvider.Provider.RegisterMockDrivers | provider/provider.go:210-215 | clears the table and refills it with one new, empty driver per declared type |
| AWSProvider.Provider.InitializeMock | provider/provider.go:97-105 | mock mode is initialized with one new, valid, empty driver for each declared type and no other |
| AWSProvider.Provider.ResourceDriver | provider/provider.go:501-507 | once the declared types are registered, exactly they have a driver, and it makes resources of the type asked for |
| AWSProvider.Provider.IndexStates | provider/provider.go:279-282 | the indexing loop, last state winning |
| AWSProvider.Provider.PlanSpec | provider/provider.go:289-325 | one pass of the action loop: create, error, nothing, or update with its changes |
| AWSProvider.Provider.Plan | provider/provider.go:274-328 | the actions of the plan in order, refused before initialization; no reference is written |
| Runner.JobRunner.WriteEach | provider/runner.go:176-187 | one newline-terminated chunk per non-empty message, up to the first refused write |
| Runner.JobRunner.JobLogs | provider/runner.go:148-194 | the pump's run on client and sink, with the early exits for missing client, sink or stream |
| Runner.JobRunner.PumpPages | provider/runner.go:163-194 | the paging loop makes the pump's run |
| JobLogs.LinesExact | provider/runner.go:176-187 | one chunk for each non-empty message, in order |
| JobLogs.LinesTerminated | provider/runner.go:181-183 | every chunk ends in a newline |
| JobLogs.TextDelivered | provider/runner.go:160-194 | what a sink ends with is, message by message, the i-th non-empty message itself, followed by a newline unless it ends in one; then one end of file, or on failure the first of these and none |
| JobLogs.LogTextDelivered | provider/runner.go:160-194 | so for a finite log, whatever its pages |
| JobLogs.PumpDelivers | provider/runner.go:160-194 | success exactly when every fetch is answered and every write accepted; then every non-empty message once, in order, and one end of file; otherwise a prefix and none |
| JobLogs.FiniteLogDelivered | provider/runner.go:160-194 | a finite log whose token repeats only at its end is delivered whole, however it is cut into pages |
| JobLogs.PumpEndsIff | provider/runner.go:188-192 | a pump that nothing breaks ends if and only if the service stops |
| JobNames.AwsJobName | provider/runner.go:281-296 | the step-by-step normalization, default, suffix and cut compute the name |
| JobNames.JobNameShape | provider/runner.go:281-303 | for every input and every 64-bit time: at most 64 of [a-z0-9-], a base that starts and ends in a letter or digit, the time at the end, and a started-by prefix of at most 36 |
| JobNames.TimesTellNamesApart | provider/runner.go:290-295 | names made at different 64-bit times, negative ones included, differ |
| JobNames.NormalizedKeepsBase | provider/runner.go:281-289 | a name already in normal form is kept |
| JobNames.BaseTwice | provider/runner.go:281-289 | normalizing twice is normalizing once |
| JobNames.NormalizingKeepsLetters | provider/runner.go:281-285 | normalizing loses no letter or digit of the lower-cased name and adds none |
| JobNames.NormalizedJoins | provider/runner.go:281-286 | each longest run of other characters becomes one hyphen, what is between is kept, and hyphens at the ends go |
| JobNames.FittedMeans | provider/runner.go:291-294 | a base that fits is kept whole; otherwise as much as fits without ending in a hyphen |
| JobNames.ShortNameKept | provider/runner.go:287-295 | a normalized name with room for the time is kept whole, and an empty one becomes the default |

## Left out

- Deploy driver: `HealthCheck`, `ReplicaCount`, `CheckMetricGate` and `GreenEndpoint`, which only read; the safety results start from a configured stable target group that exists.
- State store: region and credential setup; the mutex field, which no method takes. `LockProtocol` gives each client number one lock at a time.
- State store: puts that are applied but reported as failed, and clients that stop while holding a lock: the code has no recovery for either.
- S3IaCStateStore.Store.ListStates: the paging is a parameter, because S3 chooses it, and objects do not change while a listing runs.
- Auto-scaling: ARNs of targets, `HealthCheck`, `Scale`, and listings that omit policies: the code asks for one page and the results hold for complete ones.
- FooledDiffs.DiffTellsIff: ranges over specs whose policies are of the two known types; `Create` and `Update` refuse any other.
- LiveDiffs.DiffTellsLiveIff: where neither interval bounds nor fractions of a hundredth are allowed it takes the characters of `FooledDiffs.DiffTellsIff` to be avoided, since otherwise not even what is printed is told apart.
- AutoScalingGroupDriver.SortStrings: writes the sorted list over the array; the library's own sorting algorithm is not modelled. Policies with equal names are sorted in listing order, where the library promises no order.
- Policies: floats are reals, and the two-decimal printing rounds halves up; a negative target that rounds to zero is printed without its sign; floats beyond the range of an int and the 64-bit width of ints are not modelled. Values read back from JSON as floats are not printed by `Diff`.
- Iam: creating and deleting roles.
- Planner: drivers other than the in-memory one, whose diffs may ask for a replacement; plan ids and times. Applying a plan is the engine's work and is modelled only as calls on the drivers followed by recording their outputs.
- Mock driver: the mutex (operations run one after another), the always empty table of sensitive keys, and maps nested inside outputs, which clones share.
- Runner: starting jobs and reading their status; the source label every chunk carries. Lower-casing is a parameter that maps characters to characters.
- Error texts, contexts, the wall clock (a parameter) and the iteration order of Go maps (any order).
- The remaining drivers, the gRPC servers, credentials, sizing, ownership and the generated collector text: thin wrappers, tables and I/O that would add only easy members.
