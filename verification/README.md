# A verified model of the MinIO console's algorithms and protocols

The console is an administration front end for a MinIO server. Most of it forwards
calls. This project models the parts that compute something or follow a protocol, and
proves in Dafny what they promise:

- **Parallel group membership** (`Iam`, `FanOut`, `GroupFanOut`, `UserGroups`). One
  goroutine per group, each with an unbuffered channel of its own, sends one membership
  request; the caller receives from the channels in order. The model is a step system
  over all schedules and all failures. Its central theorem says that at every moment the
  memberships are those of the accepted requests carried out one by one in list order,
  whatever the schedule was.
- **Access to a bucket** (`BucketAccess`, `Ordering`). Deny overrides, kept in two maps
  that are updated in nested loops over unordered maps, equals a declarative definition.
- **Group and policy updates** (`Groups`, `Policies`, `Lists`), with early exits and
  failures at any call.
- **Replication** (`ReplicationRules`, `RuleRemoval`, `ReplicationSaga`): the choice of a
  priority, two ways to look up a target, the loop that deletes rules together with
  their targets, and the concurrent workers that create a target, then a rule, and
  compensate.
- **Server shutdown** (`Shutdown`): compare-and-swap close, wait group, fan-out and
  fan-in of the servers' shutdowns, hooks and interrupts, as one step system with any
  number of servers, listeners and callers.
- **Text algorithms** (`Text`, `ConfigText`, `SubPath`, `QueryMacros`): a configuration
  printer with the reader that inverts it, a path normaliser, and macro expansion by
  repeated replacement.
- **Dashboard** (`Widget`, `Usage`): the label loop with its timeout, one result slot per
  goroutine, and sums of unsigned values in signed 64-bit integers.

`Machine` has Go's integer types, `Wrappers` the option and result types, and `Counting`
the sums that the step systems share.

Calls to the server are atomic steps that the server accepts or rejects as it likes, and
there is no other writer. In the step systems the scheduler picks any enabled step. In
the classes, whether call number `k` is accepted is the value of a function `accepts`
about which nothing is known. Timeouts are steps that may happen at any time. What
`resources.Match` matches, what Prometheus answers and in which order Go walks a map are
parameters or free choices. Integers that wrap around in Go wrap around here.

## What the proofs found

In these places the code does not do, on all inputs, what one would expect of it. The
member named gives the exact condition or the exact outcome.

- `setMultiBucketReplication` tolerates a failure to read a bucket's configuration. When
  the new rule is stored all the same, the rules that the bucket had are overwritten, and
  only then (`ReplicationSaga.OldRulesKeptIff`). Such a run exists for every bucket, and
  it reports a success (`ReplicationSaga.OldRulesLost`).
- `deleteSelectedReplicationRules` skips ids without a rule when it collects targets, but
  walks both lists with one index. A library that refuses to remove a missing rule keeps
  this harmless, and the call then ends well exactly when every id has a rule and none is
  repeated (`RuleRemoval.CallIsSafe`, `StrictOutcome`). A library that does not refuse
  lets the loop delete the target of a rule that stays: for unique rule ids, each rule
  with a target of its own, exactly when an id without a rule stands before the first
  mention of one whose rule has a target (`RuleRemoval.LenientSafeIff`, with the shortest
  such request in `MissingIdTakesWrongTarget`). It also lets it index out of range exactly when
  some id has no rule (`RuleRemoval.PanicsIff`). With such a library a failed read is worse: the first
  removal stores an empty configuration (`RuleRemoval.FailedReadWipes`).
- `getARNFromID` takes the first rule of an id and `getARNsFromIDs` the last; they agree on
  every request exactly when those name the same target
  (`ReplicationRules.LookupsAgreeIff`).
- The default priority wraps around to the lowest machine integer once a rule holds the
  highest (`ReplicationRules.ChoosePriority`).
- The loop that waits for the servers' shutdowns stops receiving at the first failure. A
  goroutine stays blocked in its send for ever in some run exactly when a shutdown fails
  and there are at least two servers (`Shutdown.AllReceivedIff`). The order that the
  comment at `api/custom-server.go:488` promises is kept (`Shutdown.HooksInOrder`).
- A `Serve` that fails leaves the listeners that it has started running, and no later call
  of `Shutdown` stops them (`Shutdown.FailedServeLeavesListeners`). That can happen exactly
  when the certificates are loaded after the first listener was started
  (`Shutdown.LeavesListenerIff`).
- The loop that waits for the label values gives up after a time. A label goroutine can
  then stay blocked in its send for ever exactly when Prometheus does answer it
  (`Widget.LateLabelIff`); a loop that did not time out leaves nobody behind
  (`Widget.NoneBehind`).
- `parseSubPath` needs a second application exactly for relative paths that stay at, or
  climb above, where they start (`SubPath.FixedAfterOneIff`).
- The text of `buildConfig` can have two meanings: a name with spaces can hold all the
  entries of another input, and a value with quotes or a key with an equals sign a second
  entry (`ConfigText.NameHoldsEntries`, `ValueHoldsEntry`, `KeyHoldsEntry`). With names
  unrestricted, an input shares its text with one of another meaning exactly when it has
  entries or its name ends in printed ones (`ConfigText.TwinIff`). The plain left-to-right
  reader of this project recovers exactly the inputs without these characters
  (`ConfigText.ReadBuilt`).
- The map sent for a notification endpoint depends on Go's map order exactly when two
  keys become equal with different values (`ConfigText.OrderIrrelevantIff`).
- In multi-group mode a group without a policy gets a list that starts with an empty name
  (`Policies.EmptyFirstName`).
- `listUsersWithAccessToBucket` answers with an empty list and no error when the group
  listing fails (its contract).
- `addUser` does not roll back: an error for a new user leaves users, memberships and
  policies as they were exactly when the user was not created (the contract of
  `UserGroups.AddUser`).
- `DrivesUsage` is the true total exactly below 2^63 (`Usage.GetAdminInfo`).

The label passes of a query are proved for all templates. The templates that the program
has today hold no label word, so the passes leave them alone; a new template with one is
expanded as meant, for all label values without a `$`, exactly when each of its label words
that begins with another known one is known too and comes before that one
(`QueryMacros.SubstitutionIff`, with an example in `QueryMacros.ShorterNameFirst`).

## Model

| member | source | states |
|---|---|---|
| Lists.UniqueKeys | api/utils.go:148-158 | first-occurrence deduplication |
| Lists.UniqueKeepsOrder | api/utils.go:148-158 | the deduplicated list keeps the order of the first occurrences |
| Lists.DifferenceArrays | api/utils.go:122-134 | the elements of the first list that are not in the second, in order |
| Lists.IsElementInArray | api/utils.go:137-145 | membership, both ways |
| Iam.ApplyCommutes | api/admin_users.go:397-402 | accepted requests on different groups, or both adding, have the same effect in either order |
| FanOut.NeverStuck | api/admin_users.go:399-412 | until every result is received, the caller can start a worker or receive, or the worker it waits for is at work |
| FanOut.AllReturned | api/admin_users.go:355-412 | at the end every send was received, every goroutine has returned, and the results are in the order of the items |
| GroupFanOut.StepValid | api/admin_users.go:352-412 | every step of the caller, a worker or the server keeps the invariant and lowers the rank |
| GroupFanOut.RunIsSequential | api/admin_users.go:399-412 | at every moment of every run the server holds what the accepted jobs give one by one in list order; a run has at most three steps a job |
| GroupFanOut.RunNeverStuck | api/admin_users.go:406-412 | no reachable state is a deadlock, whatever the calls return |
| GroupFanOut.Confluence | api/admin_users.go:399-412 | two complete runs in which the same calls succeed end in the same memberships |
| UserGroups.UpdateOutcome | api/admin_users.go:351-417 | in every complete run the user is in the assigned groups where the call succeeded and as before elsewhere; other users and unmentioned groups are unchanged; membership is exactly as assigned if and only if no call failed |
| UserGroups.UpdateUserGroups | api/admin_users.go:351-434 | success exactly when no call failed; it leaves and reports exactly the assigned groups; otherwise every group is in its old or its desired state for this user |
| UserGroups.AddOutcome | api/admin_users.go:509-540 | a complete run adds exactly the users-by-groups product for groups with an accepted call, also for repeated names |
| UserGroups.AddUsersListToGroups | api/admin_users.go:509-549 | an error exactly when a call failed, with one message for each failed call in list order |
| UserGroups.AddUser | api/admin_users.go:177-214 | success exactly when creation, groups and policies all succeeded; after a failure each group is in its old or its desired state for the user, all as desired if only the policies failed, and for a new user everything is as before exactly when the user was not created |
| BucketAccess.VerdictOf | api/admin_users.go:591-606 | the first matching statement with a valid effect decides; unknown exactly when there is none |
| BucketAccess.PolicyAllowsAndMatchesBucket | api/admin_users.go:591-606 | the loop returns that verdict |
| BucketAccess.Note | api/admin_users.go:627-637 | one verdict keeps the two maps in step with all verdicts met; denial is permanent and the maps stay disjoint |
| BucketAccess.ListUsersWithAccessToBucket | api/admin_users.go:608-677 | when the groups are listed, the sorted, duplicate-free list of exactly the keys with an Allow and no Deny, for every order of the maps; what happens when a listing fails |
| BucketAccess.AnswerIsUnique | api/admin_users.go:672-676 | that contract leaves exactly one answer |
| Ordering.SortKeepsDistinct | api/admin_users.go:675 | sorting keeps the elements and adds no duplicates |
| Groups.AdminClient.UpdateGroupMembers | api/admin_groups.go:234-245 | an accepted request has its effect, a rejected one none; each request is logged |
| Groups.AdminClient.RemoveGroup | api/admin_groups.go:187-198 | deletion is the request that removes nobody |
| Groups.AdminClient.SetGroupStatus | api/admin_groups.go:269-280 | only the two known statuses are sent |
| Groups.AdminClient.AddOrDeleteMembers | api/admin_groups.go:248-267 | after every request the members lie between the kept and the union of old and expected; no empty removal is sent; success exactly when all calls succeed, and then exactly the expected members |
| Groups.AdminClient.GroupUpdate | api/admin_groups.go:325-355 | the conditions of success, the exact result, and no write at all when everything is as expected |
| Groups.AdminClient.UpdateAgain | api/admin_groups.go:325-355 | after a success the same update writes nothing |
| Policies.NewPolicyList | api/admin_policies.go:694-698 | splitting what is written gives the first-occurrence list of old followed by new |
| Policies.NoPolicyLost | api/admin_policies.go:694-698 | nothing is lost, invented or repeated, and the old policies come first |
| Policies.NewPolicyIdempotent | api/admin_policies.go:694-701 | writing once more writes the same string |
| Policies.EmptyFirstName | api/admin_policies.go:695-698 | the written list starts with an empty name exactly for a group without a policy string or with one that starts with a comma |
| Policies.SetGroupsEffect | api/admin_policies.go:689-705 | a group has its merged policy exactly when it is among those written, also when it is listed twice |
| Policies.AssignmentIdempotent | api/admin_policies.go:683-707 | repeating the whole call changes nothing more |
| Policies.PolicyAdmin.SetPolicyMultipleEntities | api/admin_policies.go:683-707 | at every return exactly a prefix of users-then-groups has been written, all of it on success |
| Policies.EffectivePolicyNames | api/admin_policies.go:405-432 | the names of the user's and the groups' policies in order, each once; an error exactly when a look-up failed |
| ReplicationRules.ChoosePriority | api/admin_remote_buckets.go:303-314 | a picked priority is taken; a default one is positive and above all others exactly when none is the highest machine integer, and no higher than needed |
| ReplicationRules.HighestIs | api/admin_remote_buckets.go:306-310 | the loop finds the highest priority, or 0 |
| ReplicationRules.PriorityOfRun | api/admin_remote_buckets.go:305-311 | the k-th default priority of a run is the highest at first plus k + 1, until it wraps |
| ReplicationRules.PrioritiesGrowIff | api/admin_remote_buckets.go:305-311 | the priorities of a run are strictly increasing and above all present ones exactly when they fit below the machine limit |
| ReplicationRules.GetARNFromID | api/admin_remote_buckets.go:570-577 | the destination of the first rule with the id, or the empty string |
| ReplicationRules.GetARNsFromIDs | api/admin_remote_buckets.go:579-591 | for each id that has a rule, in order, the destination of its last rule |
| ReplicationRules.LookupsAgreeIff | api/admin_remote_buckets.go:570-591 | the two look-ups agree on every request exactly when first and last rule of each id name the same target; unique ids suffice |
| ReplicationRules.InStepIff | api/admin_remote_buckets.go:579-591 | the answer is index-aligned with the request exactly when every id has a rule |
| RuleRemoval.StageIsSafe | api/admin_remote_buckets.go:715-733 | when no id is overtaken by one without a rule, or all so far had one: at most one target is without its rule, no rule has lost its target and nothing unselected is touched |
| RuleRemoval.RunStages | api/admin_remote_buckets.go:715-733 | every state that the call passes through is such a stage, at every failure point |
| RuleRemoval.RunOutcome | api/admin_remote_buckets.go:717-733 | how the loop ends when every request is accepted by a lenient library |
| RuleRemoval.StrictOutcome | api/admin_remote_buckets.go:717-733 | when every request is accepted by a strict library: success exactly when every id has a rule and none is repeated, else the error of the first round that is not so |
| RuleRemoval.StrictNeverPanics | api/admin_remote_buckets.go:717-728 | a library that refuses to remove a missing rule never lets the loop index out of range |
| RuleRemoval.CallIsSafe | api/admin_remote_buckets.go:686-733 | for unique ids and own targets, with a strict library or nothing overtaken: every state is safe, and on success exactly the selected rules and their targets are gone |
| RuleRemoval.LenientSafeIff | api/admin_remote_buckets.go:686-733 | for unique ids and own targets, with a lenient library that accepts everything, every state is safe exactly when no id without a rule stands before the first mention of one whose rule has a target |
| RuleRemoval.FailedReadWipes | api/admin_remote_buckets.go:696-728 | what a lenient library does after a failed read, and exactly when that is harmless |
| RuleRemoval.PanicsIff | api/admin_remote_buckets.go:715-728 | with a lenient library that accepts everything the call indexes out of range exactly when some id has no rule |
| RuleRemoval.MissingIdTakesWrongTarget | api/admin_remote_buckets.go:715-728 | a run of two ids after which a rule stays without its target |
| RuleRemoval.Bucket.SetReplication | api/client.go:260-262 | the configuration it is given is updated and stored |
| RuleRemoval.Bucket.DeleteSelectedReplicationRules | api/admin_remote_buckets.go:686-733 | outcome, final state and all states in between are those of the specified run |
| ReplicationSaga.ActKeeps | api/admin_remote_buckets.go:449-473 | each call of a worker keeps the account of what its bucket has gained |
| ReplicationSaga.StepSound | api/admin_remote_buckets.go:427-503 | every step of every interleaving, shared origins included, keeps workers, results and other buckets in order, and lowers the rank |
| ReplicationSaga.StepValid | api/admin_remote_buckets.go:427-503 | with distinct origins it keeps each bucket as its worker accounts for it |
| ReplicationSaga.RunSound | api/admin_remote_buckets.go:427-503 | the first invariant holds throughout every run, of at most seven steps a bucket |
| ReplicationSaga.RunValid | api/admin_remote_buckets.go:427-503 | with distinct origins the second does |
| ReplicationSaga.RunNeverStuck | api/admin_remote_buckets.go:489-500 | no run deadlocks |
| ReplicationSaga.RunAnswers | api/admin_remote_buckets.go:475-503 | the i-th result is for the i-th relation; its error is empty exactly when target and rule were created |
| ReplicationSaga.RunResults | api/admin_remote_buckets.go:427-503 | with distinct origins: what a success adds, that a failure changes no rule, and that a target without a rule is left exactly when its compensating delete failed |
| ReplicationSaga.OldRulesKeptIff | api/admin_remote_buckets.go:296-354 | a bucket keeps its rules unless reading its configuration failed and the rule was stored all the same |
| ReplicationSaga.OldRulesLost | api/admin_remote_buckets.go:296-354 | for every bucket a run in which its old rules are all gone and a success is reported |
| ReplicationSaga.OthersUntouched | api/admin_remote_buckets.go:427-503 | buckets that no relation names are not touched |
| ReplicationSaga.SetMultiBucketReplication | api/admin_remote_buckets.go:427-503 | every schedule gives a complete run and one result for each relation |
| Shutdown.StepValid | api/custom-server.go:168-347 | every step of any goroutine keeps the invariant |
| Shutdown.HooksInOrder | api/custom-server.go:456-496 | the channel is closed at most once; the pre-shutdown hook precedes every server's Shutdown; the ServerShutdown hook runs at most once, only after every shutdown succeeded; wg.Done comes after it |
| Shutdown.PostHookIff | api/custom-server.go:488-495 | when the handler has ended, that hook has run exactly if all shutdowns were received as successes, and otherwise one failed |
| Shutdown.ReceiveNotStuck | api/custom-server.go:489-492 | the receive loop never waits for a send that cannot come |
| Shutdown.FailureStopsReceiving | api/custom-server.go:489-492 | after the first failure no further send is ever received |
| Shutdown.AllReceivedIff | api/custom-server.go:471-492 | every send is received in every complete run exactly when no shutdown fails or there is at most one server |
| Shutdown.LeavesBlocked | api/custom-server.go:471-492 | otherwise a run in which Serve returns and a goroutine stays blocked |
| Shutdown.ServeReturns | api/custom-server.go:191-347 | the wait group counts the live listener loops and the handler and is never negative; Serve returns nil only after Shutdown was called and all of those have finished |
| Shutdown.NotStuck | api/custom-server.go:342-347 | once Shutdown was called, the program has a step of its own until Serve returns |
| Shutdown.QuietMeansReturned | api/custom-server.go:342-347 | a run after Shutdown that the program cannot continue by itself is one in which Serve has returned |
| Shutdown.StepRank | api/custom-server.go:168-347 | every step that changes anything lowers the rank; only repeated calls and interrupts change nothing |
| Shutdown.RunBounded | api/custom-server.go:168-347 | but for repetitions, every run has a bounded number of steps |
| Shutdown.FailedServeLeavesListeners | api/custom-server.go:286-307 | after a failed set-up the started listeners run on and no server is ever shut down |
| Shutdown.LeavesListenerIff | api/custom-server.go:191-312 | some run of Serve fails with a listener running exactly when the certificates are loaded after the first listener was started |
| Shutdown.Server.Shutdown | api/custom-server.go:449-454 | the first call closes the channel, the others do nothing |
| Shutdown.Server.HandleInterrupt | api/custom-server.go:538-552 | only the first interrupt calls Shutdown |
| Shutdown.AwaitServers | api/custom-server.go:489-492 | success exactly when all results are; receiving stops at the first failure |
| ConfigText.BuildConfig | api/admin_config.go:214-230 | the name followed by the printed normal form of the entries |
| ConfigText.ReadBuilt | api/admin_config.go:214-230 | the given left-to-right reader recovers name and entries exactly for printable inputs |
| ConfigText.BuildInjective | api/admin_config.go:214-230 | two printable inputs with the same text mean the same |
| ConfigText.NameHoldsEntries | api/admin_config.go:214-230 | a name with spaces can print as another name with entries |
| ConfigText.TwinIff | api/admin_config.go:214-230 | an input shares its text with one of another meaning exactly when it has entries or its name ends in printed ones; a name without spaces never does |
| ConfigText.ValueHoldsEntry | api/admin_config.go:214-230 | one entry with quotes in its value can print as two |
| ConfigText.KeyHoldsEntry | api/admin_config.go:214-230 | one entry with an equals sign in its key can print as two |
| ConfigText.SameTextTwice | api/admin_config.go:214-230 | two inputs with one text |
| ConfigText.ReadFullNameBack | api/admin_config.go:157-163 | the name rebuilt from sub-system and target splits into them again |
| ConfigText.SameMapForEveryOrder | api/admin_notification_endpoints.go:124-130 | coherent properties give the same map in every order of the walk |
| ConfigText.OrderIrrelevantIff | api/admin_notification_endpoints.go:124-130 | the order is irrelevant exactly for coherent properties |
| ConfigText.AddNotificationEndpoint | api/admin_notification_endpoints.go:94-132 | the text sent reads back as the sub-system, the account and what the properties mean |
| SubPath.AlwaysSlashed | api/configure_console.go:474-489 | the result begins and ends with a slash |
| SubPath.FixedAfterTwo | api/configure_console.go:474-489 | two applications reach a fixed point, whose components are canonical |
| SubPath.FixedAfterOneIff | api/configure_console.go:474-489 | one application does exactly for the inputs described |
| SubPath.RootedIsCanonical | api/configure_console.go:474-489 | for a rooted input the first result is fixed and has no empty, dot or dot-dot component |
| QueryMacros.ExpandQuery | api/admin_info.go:1132-1144 | the loop computes the three passes |
| QueryMacros.NoMacroLeft | api/admin_info.go:1132-1144 | with label values and selector free of dollar signs neither macro is left in the query, for every template |
| QueryMacros.ExpandIsRewriting | api/admin_info.go:1132-1144 | for every template and selector the passes amount to one pass in which each label word has the first known name replaced that starts it |
| QueryMacros.SubstitutionIff | api/admin_info.go:1132-1144 | for all dollar-free values of the known labels and every selector this is the substitution of whole words exactly when each label word that begins with another known one is known too and comes first |
| QueryMacros.ShorterNameFirst | api/admin_info.go:1132-1144 | a template, not one of the program's own, that is not expanded as meant |
| Text.ReplaceCreatesNone | api/admin_info.go:1133-1144 | when a replacement cannot create an occurrence across its edges |
| Text.SplitJoin | api/admin_policies.go:697-698 | splitting a joined list of separator-free parts gives the list back |
| Widget.LabelRun | api/admin_info.go:1057-1084 | the map holds exactly what was received, at most one result for each label goroutine; a run has a bounded number of steps |
| Widget.LabelLoopComplete | api/admin_info.go:1076-1082 | a loop that ended without the timer has received from every label, and the names were all different |
| Widget.LateLabelIff | api/admin_info.go:1057-1084 | a label goroutine can end up blocked after the loop exactly when Prometheus answers it |
| Widget.BlockedForEver | api/admin_info.go:1066-1084 | it stays blocked in every continuation |
| Widget.NoneBehind | api/admin_info.go:1076-1082 | a loop that ended without the timer leaves every label goroutine returned |
| Widget.WaitForLabels | api/admin_info.go:1070-1084 | the loop ends under every schedule, with exactly what was received; without a timeout it knows every label |
| Widget.TargetRun | api/admin_info.go:1098-1163 | a slot is filled just when its own goroutine has written it, with its own outcome; the wait group counts the live goroutines |
| Widget.TargetsInOrder | api/admin_info.go:1098-1184 | for every schedule the caller goes on exactly when all goroutines are done, and the result is the successful outcomes in the order of the targets |
| Widget.RunTargets | api/admin_info.go:1098-1184 | a complete run with the collecting loop |
| Widget.FetchTargets | api/admin_info.go:1104-1184 | each target asks for its own expanded query |
| Widget.GetWidgetDetails | api/admin_info.go:1047-1193 | an answer exactly when Prometheus is reachable and the widget exists; its targets answer the queries expanded with the labels that came in time |
| Usage.WrapIsCongruent | api/admin_info.go:89 | wrapping picks the one machine integer congruent modulo 2^64 |
| Usage.SumDisksIs | api/admin_info.go:88-89 | the running sum over a server's drives loses only whole laps of 2^64 |
| Usage.GetAdminInfo | api/admin_info.go:83-130 | the usage is the wrapped sum of the reported drives and of the true values, right exactly below 2^63; servers and drives keep their order and number |

## Left out

- `deleteReplicationRule` (`api/admin_remote_buckets.go:593-639`): it looks up the target after the library has changed the configuration, so its outcome depends on code that is not part of this model.
- Two relations with the same origin bucket in `setMultiBucketReplication`: the workers race on one configuration, so the theorems about buckets require distinct origins. New targets have fresh, non-empty names, and errors have a text.
- `editBucketReplicationItem` and the fields of a rule other than id, priority and target: they are handed on unchanged.
- The bodies of `madmin`, `minio-go`, `mc`, `iampolicy` and Prometheus calls: atomic steps or parameters. Of the library's rule removal two variants are covered, one that refuses a missing rule and one that does not.
- UserGroups.AddUsersListToGroups: models the list of messages, not the quoted and joined error text made of it.
- RuleRemoval.Bucket.DeleteSelectedReplicationRules: the four client constructors are one flag, and a failed one ends the call before anything is stored.
- Groups.AdminClient.GroupInfo: the description has members and status only.
- UserGroups.AddUser: the secret key is not modelled.
- ConfigText.AddNotificationEndpoint: models the text that is sent; the server's answer and the restart flag are handed on.
- Shutdown.Server.Shutdown: one call at a time, with swap and close in one step; concurrent callers are in the step system.
- Shutdown.Server.HandleInterrupt: a finite number of interrupts without concurrent callers; the endless loop is in the step system.
- Widget.GetWidgetDetails: title, type, options and legends are copied.
- The time window and step of a dashboard query (`api/admin_info.go:1104-1129`), including the dereference of a missing step: arithmetic on single values.
- Real time: timeouts, grace periods and sleeps are free choices of the scheduler.
- TLS, listener creation, signal registration and `Serve`'s remaining configuration: operating-system calls; that they may fail is modelled.
- Windows path separators in `parseSubPath`: `filepath.ToSlash` is the identity, as on Unix.
- Handlers, sessions, logging, websockets, static files, KMS, IDP, tiers, site replication, subnet, speed test, profiling, inspect and release pages: forwarding and field copies.
