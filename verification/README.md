# nodelet, modelled and proved in Dafny

nodelet keeps a host in the state its cluster wants: a daemon walks an ordered chain of phases up and
down, an operator tool (nodeletctl) grows and shrinks the set of masters, and a webhook (bouncer) answers
token reviews from Keystone or from a cache. This project models the parts of it that are hardest to get
right and proves what they keep over every run:

| files | what they model |
|---|---|
| `Options`, `Sequences` | an optional value, and one law of sequences |
| `Phases` | the phase lists of the node roles and the check that orders them |
| `NodeletModel`, `NodeletRuns`, `NodeletTraces`, `NodeletRetries`, `NodeletOutcomes`, `NodeletIterations`, `NodeletReports`, `NodeletSnapshots` | the reconciler on values, and theorems over every run |
| `GoSlices`, `Nodelet`, `PhaseCommands` | the same reconciler as an object that updates fields in place and appends to aliased slices, the process loop, and the command line |
| `Cordon`, `CordonRuns` | who cordoned the node: the annotation protocol, and the reconciler's effect on it |
| `ExpireCache`, `Authn` | the expiring LRU cache and the authenticator, as interleaved atomic steps and as objects |
| `DiffNodes`, `Scaling`, `ScalingRuns`, `ScalingOutcomes` | the diff of desired and active nodes, the upgrade gate, and the scaling of masters: every moment of a run, and where it ends |
| `SortedKeys`, `KubeEnv`, `FieldTrees`, `HostMap` | the kube.env printer with its readers, and the conversion of hosts to settings and back |

`dafny verify dfyconfig.toml` checks everything.

## How to read it

Every answer of the outside world is a parameter: what each phase's Status, Stop and Start return in an
iteration, what the clock says, which part of a remote call fails. A theorem that quantifies over these
parameters holds whatever the world does. Loops and objects of the Go code are Dafny methods and classes, each
proved equal to a function on values; the theorems are about those functions. `Nodelet.Run`, `Authenticator`,
`ClusterOperator`, `Cluster` and `KubeEnvMap` are the objects.

Assumptions, all visible as `requires` clauses or in the shape of the model:

- At least one phase and a non-zero full-retry count (`Env.Usable`). The Go code indexes `phases[0]` and divides
  by the count; a role other than master, worker and none gives an empty list.
- The LRU library is a bounded recency map, the password hash is ideal, Keystone is its interface.
- etcd takes a peer address only once, a member has no name until its etcd has started, and the name is then the
  node name (nodeletctl/pkg/nodeletctl/templates.go:43).
- A failed write of the kube.env file may have written any part of the text.

## What the proofs found

- A state file that records role `none` with an empty cluster id makes a later process with passing checks
  declare the service up under the wrong identity: `HealthyIterationConverges` has the exact condition.
- A restart that resumes above the uncordon phase drains the node and never uncordons it, while the service is
  reported up: `EndsSchedulableExactly`, `ResumeAboveUncordonStrands`, `MasterCanBeStranded`.
- The grace window for failing checks does not restart with a retry after a failed start, since such an
  iteration runs no checks: `ForgivenExactlyInGrace` has the exact window, `RetryBeginsNoGrace` the consequence.
- A drain or an uncordon that is interrupted half way leaves a cordon that the next status pass attributes to
  the user: `TrackKeptExactly` lists exactly which.
- A user's cordon or uncordon that no status pass has seen is undone by the next restart:
  `UnseenActionIsUndone`; one that was seen stands: `LastActionStands`.
- A scale run succeeds only if no new master's address is a member yet and every master to be removed still is
  one. So after a run that ends when etcd has taken a master that does not come up, or has dropped a master whose
  node stays, running again fails as long as that is so: `SuccessLeavesWantedExactly`. The list given to a new
  master leaves out masters that are about to go: `MayHappen`.
- A shell that reads the kube.env file gets single quotes with a backslash in front and newlines as two
  characters; the comment in the source names only the double quotes: `ShellKeepsExactlyPlain`.
- The comment in the start handler says a full restart comes after 10 failures; the code takes the configured
  count, and so does `FullRestartComes`.

## Model

| member | source | states |
|---|---|---|
| Phases.ValidatePhaseOrdering | nodelet/pkg/phases/register.go:84-93 | comparing neighbours accepts a list exactly if every pair of phases is in strictly rising order |
| Phases.InitAndLoadRolePhases | nodelet/pkg/phases/phases.go:21-50 | master and worker get their own lists, no role a single phase without certificates; any other role gets no phases, or an error exactly if setting up control groups failed; every list is strictly ordered |
| Phases.MasterPhasesShape | nodelet/pkg/phases/register.go:24-52 | the master list has 21 strictly ordered phases, certificates first and only first, uncordon at 16, drain last |
| Phases.WorkerPhasesShape | nodelet/pkg/phases/register.go:54-76 | the worker list has 15 strictly ordered phases, certificates first and only first, uncordon at 13, drain last |
| Phases.WorkerIsMasterWithoutControlPlane | nodelet/pkg/phases/register.go:24-76 | a worker runs exactly the phases of a master that are not for etcd, its webhook, add-ons or the virtual address, in the same order |
| NodeletModel.StatusPass | nodelet/pkg/nodelet/nodelet.go:237-294 | the failed check handed on is an index in range, and only verdict, clock, operation and reported state change |
| NodeletModel.StartChain | nodelet/pkg/nodelet/nodelet.go:300-323 | the chain ends at the first phase that fails, which is the one reported as failed, and changes reported fields only |
| NodeletModel.Reconcile | nodelet/pkg/nodelet/nodelet.go:142-172 | the recorded fail step always names a phase or is -1 |
| NodeletRuns.StartCompletes | nodelet/pkg/nodelet/nodelet.go:300-323 | after a start the completed phases are exactly those before the first failure, including the ones skipped at the bottom |
| NodeletRuns.BootBoundary | nodelet/pkg/nodelet/nodelet.go:598-622 | a process begins consistent from any extension file |
| NodeletRuns.RunBoundary | nodelet/pkg/nodelet/nodelet.go:142-235 | at every reachable boundary the completed phases are a prefix; a fail step k means k phases completed, phase k reported as failed and the service down; service up means no fail step, no attempts and all phases completed |
| NodeletTraces.RunOrdered | nodelet/pkg/nodelet/nodelet.go:174-369 | in every run each Start comes when every lower phase was last started or checked with success, each Stop when every higher phase was last stopped with success, and everything below a failed phase stays live |
| NodeletTraces.RestartOrdered | nodelet/pkg/nodelet/nodelet.go:194-216 | one restart keeps that order over any earlier history |
| NodeletTraces.StatusPassOrdered | nodelet/pkg/nodelet/nodelet.go:243-293 | every phase below the failed check handed on is live |
| NodeletRetries.ResumeStaysAbove | nodelet/pkg/nodelet/nodelet.go:174-219 | a retry that is no full restart touches nothing below the failed phase, and the fail step does not fall |
| NodeletRetries.StreakStaysAbove | nodelet/pkg/nodelet/nodelet.go:174-249 | the same over a whole streak of retries between full restarts |
| NodeletRetries.FullRestartComes | nodelet/pkg/nodelet/nodelet.go:194-205 | any full-retry-count consecutive iterations that each follow a failure contain a start from phase 0 |
| NodeletRetries.AttemptsCount | nodelet/pkg/nodelet/nodelet.go:194-210 | until a start from the bottom comes, the attempt counter counts the iterations |
| NodeletOutcomes.HealthyIterationConverges | nodelet/pkg/nodelet/nodelet.go:174-219 | one iteration in which checks and starts work ends with the service up, whatever Stop answers, and under the configured identity exactly if no role-less record hides it |
| NodeletOutcomes.HealthyRunConverges | nodelet/pkg/nodelet/nodelet.go:142-219 | after that iteration no Start and no Stop is ever called while things stay healthy |
| NodeletOutcomes.SettledStaysQuiet | nodelet/pkg/nodelet/nodelet.go:183-192 | a settled service sees only checks and keeps its identity |
| NodeletOutcomes.RecordWithoutRoleHidesIdentity | nodelet/pkg/nodelet/nodelet.go:183-192 | a master with its 21 phases, booted from such a file, that is declared up without its identity |
| NodeletOutcomes.CertsTornDownExactly | nodelet/pkg/nodelet/nodelet.go:331-354 | an iteration stops the certificate phase exactly if it restarts, the failed check is 0 and no higher Stop fails |
| NodeletOutcomes.NewIdentityDropsCerts | nodelet/pkg/nodelet/nodelet.go:183-201 | a running node that gets a new identity drops its certificates |
| NodeletOutcomes.RetryKeepsCerts | nodelet/pkg/nodelet/nodelet.go:338-345 | a retry after a failure past phase 0 never drops them, full restart or not |
| NodeletOutcomes.ForgivenExactlyInGrace | nodelet/pkg/nodelet/nodelet.go:251-293 | in every run, a failing check of a service reported up is forgiven exactly within the threshold of the latest iteration that ran its checks and passed them or was not reporting up |
| NodeletOutcomes.RetriesMoveNoGrace | nodelet/pkg/nodelet/nodelet.go:243-249 | after any run, iterations that follow a failed start leave the grace window where it was |
| NodeletOutcomes.RetryBeginsNoGrace | nodelet/pkg/nodelet/nodelet.go:243-293 | after any run and any number of retries that at last bring the service up, the window still counts from before the failure, although the last retry began with the service down |
| NodeletOutcomes.RetryIsNotForgiven | nodelet/pkg/nodelet/nodelet.go:275-292 | a run of a master with its 21 phases in which a check failing within the threshold of the latest iteration that began down is not forgiven |
| NodeletIterations.CallsExactly | nodelet/pkg/nodelet/nodelet.go:142-369 | every call of an iteration and its order, from state and answers alone: which checks run; that a stack that runs unwanted is stopped from the top down to the first failure; that one that is wanted and does not run, or runs as another, is stopped and started from the fault or, when the full-retry count is reached, from the bottom; and that nothing else is called |
| NodeletIterations.StopForgetsAll | nodelet/pkg/nodelet/nodelet.go:221-235 | a stack stopped because it is unwanted is recorded as down with no fail step, attempts, completed phases or identity, whatever Stop answers |
| NodeletIterations.RecordKept | nodelet/pkg/nodelet/nodelet.go:142-235 | an iteration that neither stops nor restarts keeps the record, and for a settled stack sets it to up and complete |
| NodeletIterations.RestartRecorded | nodelet/pkg/nodelet/nodelet.go:194-216 | what a restart records: identity, completed phases, failed phase, fail step, and exactly when the attempt is counted or forgotten |
| NodeletIterations.OperationRecorded | nodelet/pkg/nodelet/nodelet.go:142-241 | the recorded operation and whether the stack is found running, by the checks, the fail step and the grace window |
| NodeletIterations.StopReportsLastCall | nodelet/pkg/nodelet/nodelet.go:332-369 | a Stop reports the failure of its last call only, so a forced one may report none after failures |
| NodeletReports.StreakClimbs | nodelet/pkg/utils/extensionfile/extension.go:164-195 | along failures past phase 0 with working Stops the counter grows by one per iteration and every snapshot written reports converging at 1, retrying from 2 and failed from 11 |
| NodeletReports.StreakNeverStepsBack | nodelet/pkg/utils/extensionfile/extension.go:164-195 | so between any two snapshots of such a streak the reported state never improves |
| NodeletReports.AttemptClimbs | nodelet/pkg/nodelet/nodelet.go:194-218 | one more failed attempt adds exactly one to the counter, in every snapshot of it |
| NodeletSnapshots.RunTold | nodelet/pkg/utils/extensionfile/extension.go:164-195 | every snapshot of every run, by its own fields: ok if the service is up or the stack is as wanted; else converging, retrying or failed at 1, 2 to 10 and over 10 attempts; else as reported before |
| NodeletSnapshots.FileIsCurrent | nodelet/pkg/nodelet/nodelet.go:160-168 | after every iteration the last snapshot is the state |
| NodeletSnapshots.StartChainAnnounces | nodelet/pkg/nodelet/nodelet.go:304-319 | each phase is announced with exactly the lower phases completed, then reported completed or failed, in this order |
| NodeletSnapshots.BootReports | nodelet/pkg/utils/extensionfile/extension.go:63-72 | the attempts and node state a process begins with, for every file and configuration |
| GoSlices.Append | nodelet/pkg/nodelet/nodelet.go:315-316 | append writes one element of the shared array when there is room and otherwise leaves it alone |
| NodeletObject.Nodelet.constructor | nodelet/pkg/nodelet/nodelet.go:598-622 | the object begins with the names of its phases and the state loaded from the file |
| NodeletObject.Nodelet.Status | nodelet/pkg/nodelet/nodelet.go:237-294 | the checking loop does what the status pass on values does |
| NodeletObject.Nodelet.Stop | nodelet/pkg/nodelet/nodelet.go:332-369 | the loop down does what the stop chain on values does and leaves the list of all phases untouched |
| NodeletObject.Nodelet.Start | nodelet/pkg/nodelet/nodelet.go:300-323 | appending to the aliased list of completed phases never changes the list of all phases, spare capacity included, and ends as its prefix |
| NodeletObject.Nodelet.SkipGenCertsPhase | nodelet/pkg/nodelet/nodelet.go:325-345 | afterwards no Stop, to whatever index, forced or not and whatever the phases answer, calls the Stop of a certificate phase |
| NodeletObject.Nodelet.HandleServiceStartState | nodelet/pkg/nodelet/nodelet.go:174-219 | does what the start handler on values does |
| NodeletObject.Nodelet.HandleServiceStopState | nodelet/pkg/nodelet/nodelet.go:221-235 | does what the stop handler on values does |
| NodeletObject.Nodelet.PopulateExtraFields | nodelet/pkg/utils/extensionfile/extension.go:164-195 | settles the reported node state |
| NodeletObject.Nodelet.Reconcile | nodelet/pkg/nodelet/nodelet.go:142-172 | one iteration refines the step on values: state, calls in order, snapshots in order |
| NodeletObject.Nodelet.Run | nodelet/pkg/nodelet/nodelet.go:37-86 | the process from its first write through any number of iterations refines the run on values, with every index in range |
| PhaseCommands.PhasesOptions.Validate | nodelet/pkg/nodelet/cmd/phase_commands.go:276-291 | an accepted phase number becomes an index in range exactly if there is a phase at all |
| PhaseCommands.PhasesOptions.Restart | nodelet/pkg/nodelet/cmd/phase_commands.go:231-264 | for a single phase stops and starts that phase alone and leaves the recorded state; else takes the chain down to the index and up from it, whatever stopping answers |
| PhaseCommands.CommandDropsCertsExactly | nodelet/pkg/nodelet/cmd/phase_commands.go:100-116 | a restart command stops the certificate phase exactly if asked to, from phase 0, and forced or with all higher Stops working |
| Cordon.Cluster.AddAnnotationsToNode | nodelet/pkg/utils/kubeutils/kube_utils.go:112-130 | the annotations become the old ones overridden by the new ones, or stay as they were |
| Cordon.Cluster.RemoveAnnotationsFromNode | nodelet/pkg/utils/kubeutils/kube_utils.go:133-151 | exactly the listed annotations go, or nothing |
| Cordon.Cluster.UncordonPhaseStatus | nodelet/pkg/phases/misc/uncordon_node.go:67-119 | records or clears the user's cordon unless booting or shut down; an error changes nothing |
| Cordon.Cluster.UncordonPhaseStart | nodelet/pkg/phases/misc/uncordon_node.go:149-192 | without error the shutdown mark is gone and a node still cordoned is the user's |
| Cordon.Cluster.DrainPhaseStart | nodelet/pkg/phases/cleanup/drain_nodes.go:62-78 | fails exactly if the boot marker is still there |
| Cordon.Cluster.DrainPhaseStop | nodelet/pkg/phases/cleanup/drain_nodes.go:80-123 | without error the node is cordoned and marked as shut down |
| Cordon.StatusRecordsUnexplained | nodelet/pkg/phases/misc/uncordon_node.go:74-118 | a finished status pass leaves a booting or shut down node alone, and else sets or removes the user's mark as the node is cordoned or not |
| Cordon.StartLiftsExactly | nodelet/pkg/phases/misc/uncordon_node.go:149-182 | a finished start strikes the shutdown mark and leaves a cordon exactly if the user's mark stands at true |
| Cordon.BootingIsLeftAlone | nodelet/pkg/phases/misc/uncordon_node.go:74-78 | from the boot marker to the start of the drain phase, status passes change nothing |
| Cordon.OtherAnnotationsStay | nodelet/pkg/utils/kubeutils/kube_utils.go:112-151 | no sequence of operations touches any other annotation |
| Cordon.UserCordonSurvives | nodelet/pkg/phases/misc/uncordon_node.go:149-182 | a recorded user cordon survives every sequence of phase operations, finished or interrupted, until the user lifts it |
| Cordon.TrackKeptExactly | nodelet/pkg/phases/cleanup/drain_nodes.go:106-122 | which operations leave a cordon that will be taken for the user's |
| Cordon.NeverMistakenForUser | nodelet/pkg/phases/misc/uncordon_node.go:74-118 | without those operations the user's mark is never set on the node's own cordon |
| Cordon.StartEndsSchedulable | nodelet/pkg/phases/misc/uncordon_node.go:149-182 | and each finished uncordon start ends schedulable |
| Cordon.MarkIsLastSeen | nodelet/pkg/phases/misc/uncordon_node.go:74-118 | in every run of phase operations and user actions the user's mark is what the last status pass to see the node saw |
| Cordon.ActionRecordedExactly | nodelet/pkg/phases/misc/uncordon_node.go:74-118 | a status pass after a user's action makes the mark agree with it exactly if the node is neither booting nor shut down or the mark agreed already |
| Cordon.AgreementKeptExactly | nodelet/pkg/phases/cleanup/drain_nodes.go:106-122 | a phase operation keeps the agreement exactly if the user cordoned or the operation does not lose track |
| Cordon.LastActionStands | nodelet/pkg/phases/misc/uncordon_node.go:149-182 | a user's action that was seen stands until the user acts again |
| Cordon.UnseenActionIsUndone | nodelet/pkg/phases/misc/uncordon_node.go:149-182 | one that was not seen is undone by a drain and an uncordon start |
| CordonRuns.EndsSchedulableExactly | nodelet/pkg/nodelet/nodelet.go:194-216 | a working restart by the reconciler ends schedulable exactly if it goes down to the uncordon phase |
| CordonRuns.ResumeAboveUncordonStrands | nodelet/pkg/nodelet/nodelet.go:194-216 | otherwise the service is reported up, the node stays cordoned, and no later healthy iteration changes that |
| CordonRuns.MasterIsStranded | nodelet/pkg/nodelet/nodelet.go:174-323 | every run of a fresh master that fails to start a phase above uncordon and then works ends so |
| CordonRuns.MasterCanBeStranded | nodelet/pkg/phases/register.go:24-52 | a run from boot in which coredns fails to start once, with a node that took work before |
| ExpireCache.LRUExpireCache.Add | bouncer/pkg/cache/expirecache.go:32-36 | the key is found with its value and expiry, every other key as before unless the cache is full and it is the least recent, and a timer is set for the expiry |
| ExpireCache.LRUExpireCache.Fire | bouncer/pkg/cache/expirecache.go:35-35 | the timer takes its key out, whoever has stored it since |
| ExpireCache.LRUExpireCache.Get | bouncer/pkg/cache/expirecache.go:40-50 | returns an entry up to and including its expiry and removes it afterwards |
| ExpireCache.EveryHitIsJustified | bouncer/pkg/cache/expirecache.go:32-50 | in every interleaving of lookups, expiry checks, removals, stores, evictions and timers each hit returns the latest stored value as of its lookup, unexpired when checked, and the size stays within the capacity |
| ExpireCache.OnlyStoresAdd | bouncer/pkg/cache/expirecache.go:32-50 | stale timers and racing removals only take entries away |
| ExpireCache.QuietCacheIsEmpty | bouncer/pkg/cache/expirecache.go:32-36 | every entry has a timer or a caller about to set one, so with neither left the cache is empty |
| ExpireCache.EveryRunByRecency | bouncer/pkg/cache/expirecache.go:32-50 | in every interleaving the entries stand in the order of their last store or lookup |
| ExpireCache.LeastRecentGoes | bouncer/pkg/cache/expirecache.go:32-36 | what a store pushes out of the full cache was used before everything that stays |
| ExpireCache.NoTimerIsEarly | bouncer/pkg/cache/expirecache.go:35-35 | in every interleaving a timer has an effect only when a store of its key has expired |
| Authn.Authenticator.GroupsFromTokenRole | bouncer/pkg/policy/mapping.go:27-37 | for each role in order the group mapped to it, or the empty name |
| Authn.Authenticator.StatusFromToken | bouncer/pkg/authn/authn.go:110-121 | the user carries the token's name and id, the mapped groups, then Keystone's if it gave any |
| Authn.Authenticator.HandleCredentials | bouncer/pkg/authn/authn.go:128-172 | replies from the cache if kind and password fit and else as Keystone answers, caching all but failures other than a 401 |
| Authn.Authenticator.HandleTokenID | bouncer/pkg/authn/authn.go:177-210 | the same for a token, where an entry of the other kind is a miss |
| Authn.AuthenticatedMeansGranted | bouncer/pkg/authn/authn.go:128-210 | in every interleaving each reply conveys an earlier Keystone answer to that very request: user, id and each group for a grant, no user otherwise; a cached one follows a logged caching of that answer, at most authTTL before for a grant and at most unauthTTL before for a rejection, which stems from a 401 |
| Authn.RepeatIsServed | bouncer/pkg/authn/authn.go:128-210 | a grant or a 401 serves the same request from the cache until its ttl is over, and no other password |
| Authn.ServedAgainAfterOthers | bouncer/pkg/authn/authn.go:128-210 | also after any request for another user or token, in a cache with room for two |
| Authn.AloneIsTheHandler | bouncer/pkg/authn/authn.go:128-210 | the interleaved steps of one request without interference are the handler |
| DiffNodes.GetDiffNodes | nodeletctl/pkg/nodeletctl/nodeletctl.go:691-724 | for every map order the three lists are duplicate-free and list exactly desired minus active, active minus desired and the intersection |
| DiffNodes.ByNameComplete | nodeletctl/pkg/nodeletctl/nodeletctl.go:701-703 | of the desired hosts of one name exactly the last counts, so none is lost if names do not repeat |
| DiffNodes.NodesMatch | nodeletctl/pkg/nodeletctl/nodeletctl.go:189-203 | the gate passes exactly if the lengths and the sets of names agree |
| DiffNodes.GateIsPermutation | nodeletctl/pkg/nodeletctl/nodeletctl.go:189-203 | for distinct active names it passes exactly if the desired names are a duplicate-free permutation of them |
| DiffNodes.RepeatsFoolTheGate | nodeletctl/pkg/nodeletctl/nodeletctl.go:189-203 | the gate relies on distinct active names, which the Kubernetes API guarantees: it would pass lists with repeats that are no permutation |
| Scaling.ClusterOperator.AddMasters | nodeletctl/pkg/nodeletctl/nodeletctl.go:726-780 | the loop does what the additions on values do, up to the first failure |
| Scaling.ClusterOperator.RemoveMasters | nodeletctl/pkg/nodeletctl/nodeletctl.go:782-820 | the loop does what the removals on values do, up to the first failure |
| Scaling.ClusterOperator.FindEtcdMember | nodeletctl/pkg/nodeletctl/etcd.go:123-141 | the first member listed under the name, or none if no listed member has it |
| Scaling.ClusterOperator.DropFromCurrent | nodeletctl/pkg/nodeletctl/nodeletctl.go:809-815 | the loop swaps the last master into the place of the first of that name |
| Scaling.SwapDeleteRemovesOne | nodeletctl/pkg/nodeletctl/nodeletctl.go:809-815 | swap-delete takes exactly one entry of the name out of any list, and nothing if there is none |
| ScalingRuns.ScaleIsSafe | nodeletctl/pkg/nodeletctl/nodeletctl.go:664-673 | in every prefix of a run, whatever etcd's members are: one member changes per step, at most one is unsynced, nobody leaves before all new masters are in and synced, all former members stay during additions and all wanted masters that were or became members stay during removals, only members named to leave are removed, and every call of etcd, accepted or not, uses endpoints of wanted masters that are members, except those that were none at the start |
| ScalingRuns.AddAllSafe | nodeletctl/pkg/nodeletctl/nodeletctl.go:737-778 | the part of that about additions, calls that etcd refuses included |
| ScalingRuns.RemoveAllSafe | nodeletctl/pkg/nodeletctl/nodeletctl.go:783-818 | the part about removals, in which swap-delete changes nothing |
| ScalingRuns.EndpointsReach | nodeletctl/pkg/nodeletctl/etcd.go:16-34 | a call uses one endpoint for each current master, in order, spelled out with its address or name at port 4001, in brackets for IPv6; and these masters are known |
| ScalingRuns.NewMasterSeesMembership | nodeletctl/pkg/nodeletctl/nodeletctl.go:728-751 | when nobody is removed and etcd's members are the masters that stay, the names and addresses rendered for a new master are those of the membership and its own |
| ScalingOutcomes.SuccessLeavesWantedExactly | nodeletctl/pkg/nodeletctl/etcd.go:73-141 | a run succeeds only if no new address is a member and every leaving name is one; it leaves exactly the wanted masters just if etcd's members were the active ones, those that stay at their addresses and each leaver once |
| ScalingOutcomes.SucceedsExactly | nodeletctl/pkg/nodeletctl/nodeletctl.go:726-820 | a run succeeds exactly if every step works, the new addresses differ from each other and from the members', and etcd's list shows each master to be removed |
| ScalingOutcomes.RemovedFromCurrent | nodeletctl/pkg/nodeletctl/nodeletctl.go:792-815 | a finished removal takes exactly that master off the current ones if it is among them |
| ScalingOutcomes.ScaleCluster | nodeletctl/pkg/nodeletctl/nodeletctl.go:664-673 | both for every configuration, every list of active masters and every membership |
| ScalingOutcomes.RunsFollowConfiguration | nodeletctl/pkg/nodeletctl/nodeletctl.go:664-673 | when etcd's members are the masters of the last configuration and none that stays moves, the condition is met, so run after run etcd follows the configuration, removing masters that earlier runs added |
| SortedKeys.Keys | nodelet/pkg/utils/config/kubeenv.go:124-133 | all keys in ascending order, for every map order |
| SortedKeys.AscendingIsUnique | nodelet/pkg/utils/config/kubeenv.go:124-133 | there is only one such list, so the file does not depend on the map order |
| SortedKeys.LessExactly | nodelet/pkg/utils/config/kubeenv.go:131-131 | the order is alphabetical: by the first character that differs, a string before the longer ones it begins |
| KubeEnv.ToKubeEnv | nodelet/pkg/utils/config/kubeenv.go:35-50 | writes the file of the sorted keys, or as much of its beginning as the destination takes, and reports which |
| KubeEnv.WordReadsBack | nodelet/pkg/utils/config/kubeenv.go:35-50 | every printed value is read to its last quote and no further with nothing to expand: by a shell as the value with `\'` for each single quote and `\n` for each newline, by the one-pass inverse as the value |
| KubeEnv.LineReadsBack | nodelet/pkg/utils/config/kubeenv.go:40-43 | a line is read back as its key without the white space around it and the meaning of its value, whatever follows |
| KubeEnv.TrimSpaceExactly | nodelet/pkg/utils/config/kubeenv.go:40-40 | trimming takes all white space off both ends and nothing else |
| KubeEnv.EscapeFirst | nodelet/pkg/utils/config/kubeenv.go:39-39 | the two replacement passes amount to one pass over characters |
| KubeEnv.ShellKeepsExactlyPlain | nodelet/pkg/utils/config/kubeenv.go:25-25 | a shell gets the value exactly if it has no single quote and no newline |
| KubeEnv.ShellConfusesNewlines | nodelet/pkg/utils/config/kubeenv.go:39-39 | two different values that a shell reads as one |
| KubeEnv.MapComesBackExactly | nodelet/pkg/utils/config/kubeenv.go:35-50 | reading the file gives the map back exactly if its keys are shell names, and for a shell if moreover its values are plain |
| KubeEnv.CutFileIsNeverWrong | nodelet/pkg/utils/config/kubeenv.go:43-47 | what still reads of a file cut anywhere is the first few keys with their right values |
| FieldTrees.KubeEnvMap.StructToKubeEnvMap | nodelet/pkg/utils/config/kubeenv.go:200-228 | by places in the tree: every tag that occurs gets the value at its last place, every other key stays as it was |
| FieldTrees.LastPlaceExists | nodelet/pkg/utils/config/kubeenv.go:200-228 | a tag that occurs has a last place, so the result is fixed |
| FieldTrees.PuttingReads | nodelet/pkg/utils/config/kubeenv.go:200-228 | the same of the list of settings that specifies the walk |
| FieldTrees.PutHoldsLast | nodelet/pkg/utils/config/kubeenv.go:200-228 | of several settings of one key put into a map the last counts |
| FieldTrees.ReadKubeEnvKeysFromVal | nodelet/pkg/utils/config/kubeenv.go:236-256 | yields a key exactly if a simple field at some place of the tree has that tag |
| FieldTrees.KnownKeysCoverSpec | nodelet/pkg/utils/config/kubeenv.go:230-256 | the keys read off an empty host cover the settings of every host's spec |
| HostMap.ConvertHostToKubeEnvMap | nodelet/pkg/utils/config/kubeenv.go:175-198 | spec, then name, then extra settings in some order of their map, each only under a free upper-case key |
| HostMap.ExtraNeverOverrides | nodelet/pkg/utils/config/kubeenv.go:182-195 | for every order no spec setting and not the name is changed, and exactly the upper-case extra keys are added |
| HostMap.HostSettingsAre | nodelet/pkg/utils/config/kubeenv.go:175-228 | what the map of a host holds: its name, for every other tag the value at its last place, for every free upper-case extra key the value of the first that yields it, and nothing else |
| HostMap.FirstExtraCounts | nodelet/pkg/utils/config/kubeenv.go:184-195 | of extra keys alike but for case the first in the order counts |
| HostMap.OrderIrrelevantExactly | nodelet/pkg/utils/config/kubeenv.go:184-195 | the map is the same for all orders exactly if no two extra keys compete for a free key with different values |
| HostMap.ToHost | nodelet/pkg/utils/config/kubeenv.go:86-112 | the name from its key unless that is a known one, and as extra settings exactly the keys that are neither |
| HostMap.NameAndExtraComeBack | nodelet/pkg/utils/config/kubeenv.go:86-198 | the name survives the round trip exactly if it is empty or its key is not tagged; the extra settings come back exactly if all their keys are upper-case and neither known nor the name's |
| HostMap.MapComesBackExactly | nodelet/pkg/utils/config/kubeenv.go:86-198 | the map survives the round trip over a host exactly if no extra key is a known one outside the spec |

## Left out

- Status check names and times, the list of status checks and the Sunpike updates: reported only, read by nothing that is modelled.
- Reading and converting the extension file: the model starts from any values it may hold.
- NodeletObject.Nodelet.constructor: capacities of slices grown by append are one choice of the growth Go allows.
- A config update in the middle of a run: it ends the process, and the next one starts from what the file holds.
- The text of peer URLs: an address stands for its URL, and whether etcd accepts it is an answer.
- Worker deployment and deletion, node synchronisation internals, SSH, certificates, systemd and containers: plumbing around the modelled steps.
- isClusterCfgValid and the CIDR arithmetic: would only add easy members.
- The concrete Keystone client: it wraps its errors so that a 401 can no longer be recognised; the model follows the interface.
- HTTP handling of token reviews, and the choice between the two handlers.
- KubeEnv.WordReadsBack: strings are sequences of characters, not bytes; invalid UTF-8 and the null character are not modelled.
- HostMap.ConvertHostToKubeEnvMap: upper-casing covers the letters a to z; formatting a field's value as text is part of its value.
- HostMap.ToHost: what the mapstructure library decodes from the known keys is a parameter.
- Taints and labels of nodes, and the parts of the phases that do not touch annotations or schedulability.
