# Verified models of the OpenShift assisted control-plane and bootstrap providers

The repository holds two Cluster API providers that install and run OpenShift through the assisted installer. This
project models the parts of it that coordinate state, and proves what they promise for every input, every run and
every reachable state.

Protocols are labelled transition systems with all-runs lemmas. Beside each stands the code as a class or as methods
with loops, in which every remote call may fail and everybody else may move before every call. For the lifecycle, the
upgrade driver, agent approval, the golden image and scale-up the contract says that one pass of the code is one step
of the protocol, which carries the results over to the code. For the DNS rules the two stand side by side: the protocol
interleaves the single steps of any number of tenants, and one tenant's call as code is proved directly against an API
server that others update in between, with the commit-order invariant kept there.

| file | what it models |
|---|---|
| `Etcd.dfy` | the etcd client: leadership transfer, member removal, connections, with a trace and a monitor |
| `Lifecycle.dfy` | the machine and etcd member lifecycle as a protocol: safety, conservation, convergence |
| `Controller.dfy` | the stages of one reconcile pass as code, refining `Lifecycle` |
| `DnsRules.dfy` | the DNS rule list many tenants share under optimistic concurrency |
| `Upgrade.dfy` | the upgrade driver and its ClusterVersion writes |
| `Agents.dfy` | agent approval, an election over reconciles in any order |
| `GoldenImage.dfy` | golden image provisioning with its cooldown |
| `ScaleUp.dfy` | the creation of a machine's three objects with compensating deletes |
| `JsonMerge.dfy` | the in-place merge of JSON maps |
| `ImageFiles.dfy` | file lookup in a layered image over symbolic links |
| `ShellQuoting.dfy` | shell quoting of provider IDs, against a word reader |
| `ReleaseKeys.dfy` | the SemVer-aware sort key and the choice of the latest directory |
| `Orders.dfy`, `Basics.dfy` | SemVer precedence and lexicographic order; shared datatypes |

`dafny verify dfyconfig.toml` checks the whole project.

## Assumptions

- Reads of Kubernetes objects are current; one upgrade pass sees one ClusterVersion.
- Nobody but the controller removes etcd members; identities of etcd members are never shared; owned machines have
  distinct node names. Members may join, leaders may change and alarms may come and go before every single call.
- A status reply reports the leader of its moment; which member answers is left open unless things are calm. A
  successful MoveLeader installs its target. A MemberRemove can take effect although its reply is lost.
- Calls to etcd, to Machines and to the objects of a scale-up can take effect although their reply is lost. Any other
  write that reports an error took no effect.
- Things are called calm when every call is answered and nobody else moves, except that etcd elects a leader where it
  has none, among the members whose pod is usable; the member that answers over a connection is then the one named
  after the pod's node. Safety never assumes this; convergence does.
- An import job fills the claim that stands when the job is created.
- The golden image's jobs, ConfigMap and claim are created by one control plane only; others may delete or finish them.
- Version parsing is an arbitrary partial function. Whether a release is GA and which image digest it resolves to are
  inputs, as are the failure domain chosen, the clock (which never goes back) and generated names.
- Where a relative link leads (`filepath.Join`) is an arbitrary function of the link's path and its target.
- Decoding JSON text is an input: a document is a JSON value or no JSON at all.

## Findings

- The measure (|desired − active|, deleting machines with hook, orphan members) does not drop in every pass that acts.
  `Lifecycle.MeasureDropsExactlyWhen` says from which worlds it is sure to, `Lifecycle.MemberGoneHookKept` shows a pass where
  it does not, and `Lifecycle.PassLowersPotential` gives a measure that does drop in all of them.
- desiredUpdate can be written twice for one request without any third party touching it: a push, and later a clear
  (`Upgrade.WritesTwice`). `Upgrade.AtMostOneWriteExactlyWhen` says for which requests that is impossible, and
  `Upgrade.NextWriteExactlyWhen` in which states of a run the second write happens.
- The last test before a push, that the wanted version is newer than the running one, never decides anything
  (`Upgrade.LastTestNeverMet`).
- A succeeded import job outlives the claim it filled: a claim created after it is marked ready although nothing filled
  it (`GoldenImage.OldJobNewClaim`); `GoldenImage.ReadyClaimIsTheFilledOne` says exactly when the claim is the right one.
- Agents are listed by label over all namespaces and compared by name alone, so two agents of one name ignore each
  other (`Agents.SharedNameApprovesTwo`).
- Rule names of two tenants can coincide; `DnsRules.RuleNamesCollide` says exactly when.
- A null first document makes the merge panic unless the second is empty (`JsonMerge.MergeJson`); merging is not
  associative, and `JsonMerge.AssociativeWhenCompatible` says exactly when it is.
- A create whose reply is lost is not compensated (`ScaleUp.AllOrNothing`, `ScaleUp.CallKeepsMatched`).
- A provider ID with a single quote does not survive the double-quoted environment line
  (`ShellQuoting.DoubleQuotedUse`).
- The comment on scale-down speaks of priority for machines with a delete annotation; the code picks the oldest of the
  failure domain, and the model follows the code.

## Model

| member | source | states |
|---|---|---|
| `Lifecycle.NeverRemovesALiveMember` | controlplane/internal/controller/openshiftassistedcontrolplane_controller.go:1027-1182 | Over every run of passes and environment steps, the controller never removes the etcd member named after the node of an owned machine that is not being deleted, and never takes the member list from non-empty to empty. |
| `Lifecycle.StepIsSafe` | controlplane/internal/controller/openshiftassistedcontrolplane_controller.go:1050-1182 | The same for one step from any state with distinct node names and distinct member identities, whichever stage removed the member. |
| `Lifecycle.RunKeepsInv` | controlplane/internal/controller/openshiftassistedcontrolplane_controller.go:997-1264 | Distinct node names and distinct member identities hold at every moment of every run that starts with them. |
| `Lifecycle.StepKeepsInv` | controlplane/internal/controller/openshiftassistedcontrolplane_controller.go:286-313 | Every single step, the controller's or anybody else's, keeps those two invariants. |
| `Lifecycle.OneDrainAtATime` | controlplane/internal/controller/openshiftassistedcontrolplane_controller.go:1027-1264 | In runs in which only the controller deletes machines, at most one owned machine is ever both deleting and hooked. |
| `Lifecycle.StepKeepsOnePending` | controlplane/internal/controller/openshiftassistedcontrolplane_controller.go:294-313 | The inductive step of that: only a deletion requested by somebody else can raise the number of pending machines above one. |
| `Lifecycle.DeletesOnlyHooked` | controlplane/internal/controller/openshiftassistedcontrolplane_controller.go:997-1025 | A machine a pass deletes was active and carries the hook when it is deleted, even if it entered the pass without one. |
| `Lifecycle.OneActPerPass` | controlplane/internal/controller/openshiftassistedcontrolplane_controller.go:286-313 | Seen from the states alone, a pass removes at most one member, or creates at most one machine, or deletes at most one, and only one of these; every member that is missing afterwards is the one it removed. |
| `Lifecycle.LeadersLeaveOnlyAfterElection` | controlplane/internal/controller/openshiftassistedcontrolplane_controller.go:1065-1084 | Over every run, when a removed member of a deleting machine led, though a replacement candidate existed, the etcd trace of that very pass shows it: the last event about leadership named somebody else or found the member unlisted, and an election came after it. |
| `Lifecycle.MembersAreConserved` | controlplane/internal/controller/openshiftassistedcontrolplane_controller.go:1050-1102 | Conservation over every run: members at the start plus members that joined equal members at the end plus members the controller removed. However often a failed pass is retried, a member leaves at most as often as it came. |
| `Lifecycle.StepConserves` | controlplane/internal/controller/openshiftassistedcontrolplane_controller.go:1081-1178 | The same balance for one step, as multisets of members. |
| `Lifecycle.HookClearedMeansMemberGone` | controlplane/internal/controller/openshiftassistedcontrolplane_controller.go:1050-1099 | When the kubeconfig and the active machines could be read, the hook of a machine with a node is cleared only after its member is gone: none of that name was listed, or exactly one was removed; afterwards none of that name is left if and only if no second member carried the name. |
| `Lifecycle.PassLowersPotential` | controlplane/internal/controller/openshiftassistedcontrolplane_controller.go:286-313 | In a quiet environment every pass that changes anything strictly lowers 2·\|desired − active\| + pending + unhooked + members, and no pass raises it, whatever calls fail. |
| `Lifecycle.FewPassesAct` | controlplane/internal/controller/openshiftassistedcontrolplane_controller.go:286-313 | So over every quiet run the number of passes that act is at most the potential at the start minus that at the end. |
| `Lifecycle.Converges` | controlplane/internal/controller/openshiftassistedcontrolplane_controller.go:286-313 | A quiet run of more clean passes than the potential goes through a settled state: right number of machines (on KubeVirt perhaps waiting for bootstrap data), all hooked, nothing pending, no removable orphan. `Controller.Reconciler.Settle` carries it to the code. |
| `Lifecycle.CleanIdlePassIsSettled` | controlplane/internal/controller/openshiftassistedcontrolplane_controller.go:286-313 | A clean pass that changes nothing found nothing to do; that the code's passes are clean is `Controller.Reconciler.Reconcile`. |
| `Lifecycle.SettledStays` | controlplane/internal/controller/openshiftassistedcontrolplane_controller.go:286-313 | And a settled world is changed by no undisturbed pass, whatever calls fail: settled states are exactly the fixed points of clean passes. |
| `Lifecycle.MeasureDropsWhenProductive` | controlplane/internal/controller/openshiftassistedcontrolplane_controller.go:1027-1264 | Pass by pass, the lexicographic measure (\|desired − active\|, deleting machines with hook, orphan members) drops if and only if the quiet pass cleared a hook, removed an orphan, or created or deleted a machine: the helper of the next row. |
| `Lifecycle.MeasureDropsExactlyWhen` | controlplane/internal/controller/openshiftassistedcontrolplane_controller.go:1027-1264 | Of the world before a pass: every quiet pass that changes anything lowers the measure if and only if no active machine lacks its hook and the deleting machine whose turn it is, if any, has no node with a listed member beside which there is another. |
| `Lifecycle.MemberGoneHookKept` | controlplane/internal/controller/openshiftassistedcontrolplane_controller.go:1081-1099 | A concrete pass that acts without lowering that measure: the member was removed and the patch of the annotation failed. |
| `Lifecycle.ScaleCost` | controlplane/internal/controller/openshiftassistedcontrolplane_controller.go:1206-1264 | Creating or deleting one machine lowers the potential even where the new machine still lacks its hook. |
| `Controller.Reconciler.Reconcile` | controlplane/internal/controller/openshiftassistedcontrolplane_controller.go:286-313 | One whole pass, with every read, patch, create and delete free to fail or to lose its reply and members free to join meanwhile, is one step of the protocol, labelled with the etcd trace it really left and with what really could be read. The machine created or deleted is the one chosen, in the failure domain chosen, the hook handled is the longest waiting, the orphan removed the first listed, the stages respect their gates, and the caller is told to come back, to go on, or of an error, as fits. With nobody else moving good health is kept, and with every call answered the pass does all it wants to. |
| `Controller.Reconciler.Settle` | controlplane/internal/controller/openshiftassistedcontrolplane_controller.go:286-313 | Convergence of the code: from good health, more passes than the potential, with calls answered and nobody else moving, end in a settled state. Good health: either no machine has a node yet; or whichever machines have to go one with a member stays, some etcd pod is usable, nothing is corrupt, and either the members of staying machines may lead and a leader is up, or the leader is such a member and no machine has to go. Orphan members and deleting machines may be unreachable. |
| `Controller.RemovalKeepsHealthy` | controlplane/internal/controller/openshiftassistedcontrolplane_controller.go:1081-1178 | Removing a member that no staying machine's node names, or none, keeps good health, whoever leads afterwards as etcd lets them. |
| `Controller.YieldKeepsHealthy` | controlplane/internal/controller/openshiftassistedcontrolplane_controller.go:1065-1078 | So does moving leadership off a deleting machine's member. |
| `Controller.CreationKeepsHealthy` | controlplane/internal/controller/openshiftassistedcontrolplane_controller.go:1206-1253 | So does creating a machine. |
| `Controller.DeletionKeepsHealthy` | controlplane/internal/controller/openshiftassistedcontrolplane_controller.go:1254-1264 | And deleting one: a machine with a member still stays. |
| `Controller.HealthyWhoeverElseIsThere` | controlplane/internal/controller/openshiftassistedcontrolplane_controller.go:1105-1182 | Good health asks nothing of any other member: any may be listed besides, reachable or not. |
| `Controller.Reconciler.ReconcileStages` | controlplane/internal/controller/openshiftassistedcontrolplane_controller.go:294-313 | The stages after the hooks: each goes on only when the one before found nothing to do, and together they do at most one thing. |
| `Controller.SoundYields` | controlplane/internal/controller/openshiftassistedcontrolplane_controller.go:1065-1084 | In good health a deleting machine's member can yield to any candidate's: where it does not lead and could not be elected neither its own pod nor a fit successor is needed. |
| `Controller.Reconciler.EnsurePreTerminateHooks` | controlplane/internal/controller/openshiftassistedcontrolplane_controller.go:997-1025 | The hook is added to a subset of the unhooked active machines and to nothing else; to all of them when no error is returned, and no error is returned when calls are answered. |
| `Controller.Reconciler.ReconcilePreTerminateHook` | controlplane/internal/controller/openshiftassistedcontrolplane_controller.go:1027-1103 | Goes on only with no pending machine; otherwise it handles the one that was deleted first of those with a hook. With the kubeconfig and active machines readable and a node known, the hook is cleared only once etcd holds no such member or one was removed; in good health with calls answered it is cleared and the caller told to come back. |
| `Controller.Reconciler.RetireMember` | controlplane/internal/controller/openshiftassistedcontrolplane_controller.go:1065-1084 | Success means the node's member was removed or not there. Where a replacement candidate exists and the removed member led, the trace of this call holds the word that cleared it and an election after it. Leadership is asked to move at most once, to the node of a newest candidate. |
| `Controller.Reconciler.YieldLeadership` | controlplane/internal/controller/openshiftassistedcontrolplane_controller.go:1065-1078 | Success with a candidate means that, in this call, the member was found unlisted or somebody else was last seen leading, and it does not lead unless an election came since. The only move asked for is from the node to that of a newest candidate. In good health with calls answered it succeeds. |
| `Controller.Reconciler.LedAfterElection` | controlplane/internal/controller/openshiftassistedcontrolplane_controller.go:1065-1084 | A member that was cleared and led when it left was elected after the word that cleared it, at positions of the trace. |
| `Controller.Reconciler.ReconcileEtcdMembers` | controlplane/internal/controller/openshiftassistedcontrolplane_controller.go:1105-1182 | Removes at most one member, the first listed that no machine answers for, and none while a machine has no node or the kubeconfig cannot be read, which is an error; when it goes on cleanly no removable orphan is left, and in good health with calls answered it is clean. |
| `Controller.Reconciler.ExpectedMembers` | controlplane/internal/controller/openshiftassistedcontrolplane_controller.go:1117-1125 | Collects exactly the node names of the machines and exactly the machines without a node. |
| `Controller.Reconciler.UnexpectedMembers` | controlplane/internal/controller/openshiftassistedcontrolplane_controller.go:1148-1154 | Collects exactly the listed members that carry no expected name, the first of them first. |
| `Controller.Reconciler.RemoveFirst` | controlplane/internal/controller/openshiftassistedcontrolplane_controller.go:1171-1181 | The member removed is the first listed that no machine answers for. |
| `Controller.Reconciler.ReconcileReplicas` | controlplane/internal/controller/openshiftassistedcontrolplane_controller.go:1206-1264 | Creates one machine when too few are active, deletes one when too many are, else changes nothing; a KubeVirt cluster waits for bootstrap data; the machine is the one chosen in the failure domain given; with calls answered and a fresh name it does what is due. Its creation is one call here. |
| `Controller.Reconciler.ScaleUpControlPlane` | controlplane/internal/controller/openshiftassistedcontrolplane_controller.go:1236-1252 | The machine created has the name and failure domain chosen, no node, no bootstrap data, and the hook unless on KubeVirt. |
| `Controller.Reconciler.ScaleDownControlPlane` | controlplane/internal/controller/openshiftassistedcontrolplane_controller.go:1622-1645 | The machine deleted was active in the failure domain chosen, and none active there was created earlier; an empty domain is an error. |
| `Controller.Reconciler.Oldest` | controlplane/internal/controller/openshiftassistedcontrolplane_controller.go:1638-1645 | The machine picked for scale-down is an oldest one of those eligible. |
| `Controller.Reconciler.OldestDeletion` | controlplane/internal/controller/openshiftassistedcontrolplane_controller.go:1045-1048 | The machine handled first has the oldest deletion time of those waiting. |
| `Controller.Reconciler.Newest` | controlplane/internal/controller/openshiftassistedcontrolplane_controller.go:1065-1070 | The replacement candidate is a newest active machine with a node; that leadership goes there is `Controller.Reconciler.YieldLeadership`. |
| `Etcd.ProtectEtcdLeadership` | controlplane/internal/workloadclient/etcd.go:202-215 | With elections, joins and failures possible before every call: success means that in this call the source was absent from a list that was read, or the last leader reported or installed is non-zero and not the source's looked-up identity, which it still has; and the source does not lead unless an election came after that reply. Conversely, when this call's last word says so it succeeds, unless the status came from somebody else than the source. No connection stays open, at most one move is asked for, the one to the target, and a "not leader" refusal is followed by another status. While things are calm, a source that does not lead always succeeds, and one that leads when its own pod is reachable and its successor may lead. |
| `Etcd.ProtectLeadership` | controlplane/internal/workloadclient/etcd.go:315-433 | The same for the protocol proper, entered with the discovery connection open, which it closes before the source connection is opened. |
| `Etcd.MoveLeadershipFromSource` | controlplane/internal/workloadclient/etcd.go:360-433 | The part over the source's own connection: refreshed list, status, checks on the reply's identity, move. |
| `Etcd.MoveOverSource` | controlplane/internal/workloadclient/etcd.go:351-358 | The reconnection to the source's own pod, closed again on every path. |
| `Etcd.TransferTo` | controlplane/internal/workloadclient/etcd.go:392-430 | A transfer is asked only of a listed full member with a non-zero identity other than the source's. |
| `Etcd.RecheckLeader` | controlplane/internal/workloadclient/etcd.go:415-429 | After a "not leader" error a fresh status is asked for; it succeeds if and only if that names somebody else. |
| `Etcd.NotMoved` | controlplane/internal/workloadclient/etcd.go:410-430 | A refused move is an error, except that "not leader" is always followed by the recheck, which decides. |
| `Etcd.NothingOwed` | controlplane/internal/workloadclient/etcd.go:411-429 | In the trace every "not leader" refusal is followed by a status request, wherever nothing is owed at the end. |
| `Etcd.KnownIsLastRevealed` | controlplane/internal/workloadclient/etcd.go:315-433 | What the monitor calls the known leader is the last leader that the trace reports or installs after the last look-up, at the position the lemma returns. |
| `Etcd.WordIsLast` | controlplane/internal/workloadclient/etcd.go:315-433 | The monitor's word about leadership is the last event of the trace that looks a name up or reports or installs a leader, and its count of elections is the one up to that event. |
| `Etcd.ElectionAfterWord` | controlplane/internal/workloadclient/etcd.go:315-433 | If more elections are counted than at a word that cleared a member, the trace shows that word, nothing about leadership after it, and an election after it. |
| `Etcd.MovesAreFair` | controlplane/internal/workloadclient/etcd.go:351-409 | In the trace of every run each MoveLeader went over a connection opened to the source's own node, whose last status was answered by the source itself and named the source as leader, to a non-learner of that connection's last list with a non-zero identity other than the source's. |
| `Etcd.RemovalsAreFair` | controlplane/internal/workloadclient/etcd.go:236-313 | In the trace of every run each MemberRemove followed, on the same connection, a list that did not have exactly one member and an alarm list without CORRUPT. |
| `Etcd.MovesAreCounted` | controlplane/internal/workloadclient/etcd.go:409-409 | The monitor's list of moves asked for is that of the trace, in order. |
| `Etcd.RememberedWasRead` | controlplane/internal/workloadclient/etcd.go:236-433 | Whatever the monitor remembers of a list, a status or alarms was read over the connection that is still open, and most recently. |
| `Etcd.ConnectionsBalance` | controlplane/internal/workloadclient/etcd.go:62-75 | In every trace each connection is opened at most once and closed exactly once, except the one that is still open. |
| `Etcd.OneConnectionAtATime` | controlplane/internal/workloadclient/etcd.go:202-215 | Between any two openings the first connection was closed, so at most one is open at any moment. |
| `Etcd.CountedElections` | controlplane/internal/workloadclient/etcd.go:315-433 | The monitor's count is unchanged between two moments if and only if the trace holds no election between them. |
| `Etcd.StillNotLeading` | controlplane/internal/workloadclient/etcd.go:267-313 | Without an election a name that did not lead still does not, though members joined and the list grew. |
| `Etcd.WithoutOne` | controlplane/internal/workloadclient/etcd.go:259-262 | A removal keeps identities distinct and takes exactly the one member out of the multiset. |
| `Etcd.Cluster.Close` | controlplane/internal/workloadclient/etcd.go:62-75 | Closing releases the connection the first time and does nothing afterwards. |
| `Etcd.Cluster.Connect` | controlplane/internal/workloadclient/etcd.go:79-150 | A connection leads to a usable pod, the target node's when one is named, and the excluded node's only where no other node has one; while things are calm it fails only when there is no such pod. |
| `Etcd.PickIsLastOpening` | controlplane/internal/workloadclient/etcd.go:98-150 | The monitor's pick, with the nodes there were to choose from, is that of the last opening in the trace. |
| `Etcd.Cluster.MonitorSawEverything` | controlplane/internal/workloadclient/etcd.go:162-433 | The monitor each operation keeps good is the one that watched the whole trace, so the trace lemmas apply to every reachable cluster. |
| `Etcd.RemoveEtcdMember` | controlplane/internal/workloadclient/etcd.go:162-173 | Connects once, to the leaving member's own node only where no other has a usable pod; removes the member that the name denotes; closes on every path; a removed member that led although it had been cleared was elected since. |
| `Etcd.ConnectAvoiding` | controlplane/internal/workloadclient/etcd.go:163-163 | The connection avoids the named node wherever there is another, and a name that was cleared stays so until the next election. |
| `Etcd.RemoveMemberByName` | controlplane/internal/workloadclient/etcd.go:267-313 | The first member with the name leaves and no other; finding none is success; never the last member. |
| `Etcd.RemoveEtcdMemberByID` | controlplane/internal/workloadclient/etcd.go:188-200 | Connects, removes by identity, closes on every path. |
| `Etcd.RemoveMemberByID` | controlplane/internal/workloadclient/etcd.go:236-265 | The member with the identity leaves and no other, never the last one; success means one left. |
| `Etcd.RemoveUnlessUnsafe` | controlplane/internal/workloadclient/etcd.go:245-262 | A lone member or a CORRUPT alarm refuses the removal; a lost reply can still have removed the member. |
| `Etcd.ListEtcdMembers` | controlplane/internal/workloadclient/etcd.go:175-186 | The list returned is the membership of that moment and the connection is closed again. |
| `Etcd.FindEtcdMember` | controlplane/internal/workloadclient/etcd.go:435-445 | The loop finds the first member with the name, or none if there is none. |
| `Etcd.HasCorruptAlarm` | controlplane/internal/workloadclient/etcd.go:301-305 | The loop answers whether a CORRUPT alarm is listed. |
| `Etcd.SelectRunningEtcdPod` | controlplane/internal/workloadclient/etcd.go:500-538 | The pod is running, ready and not deleting; with a target exactly the target node's; without one the excluded node's only if no other is usable; none only if none qualifies. |
| `DnsRules.ListIsCommitsInOrder` | controlplane/internal/kubevirt/dns_proxy.go:215-325 | For any number of tenants in any interleaving, the server's list always equals the committed operations applied one after another in commit order. |
| `DnsRules.TenantsDoNotInterfere` | controlplane/internal/kubevirt/dns_proxy.go:215-325 | With distinct rule names a tenant's last committed call alone decides its rule; foreign entries keep content and order; at most one entry per rule name is preserved. |
| `DnsRules.LastOperationWins` | controlplane/internal/kubevirt/dns_proxy.go:237-323 | After any operations a name last ensured has exactly that rule in the list and a name last removed has no entry. |
| `DnsRules.StrangersUntouched` | controlplane/internal/kubevirt/dns_proxy.go:237-323 | Entries of nobody's name keep content and relative order, and no name gets a second entry. |
| `DnsRules.GivingUpMeansOthersSucceeded` | controlplane/internal/kubevirt/dns_proxy.go:351-360 | A call gives up on conflicts only if, since the step that began it, at least four updates of the object by others went through: other tenants' operations, or an operator's or administrator's update that leaves the list alone. |
| `DnsRules.CallCountsOthers` | controlplane/internal/kubevirt/dns_proxy.go:351-360 | While a call is under way or over without success, the version is what it was when the call began plus the updates by others since, tenants or not. |
| `DnsRules.StepKeepsInv` | controlplane/internal/kubevirt/dns_proxy.go:215-325 | Each step keeps it that what a tenant holds is current unless the version moved on, and that the list is the commits in order. |
| `DnsRules.RuleNamesCollide` | controlplane/internal/kubevirt/dns_proxy.go:221-221 | Two tenants get the same rule name if and only if they are the same, or one namespace swallows a hyphenated head of the other's cluster name. |
| `DnsRules.UpsertMeaning` | controlplane/internal/kubevirt/dns_proxy.go:254-268 | Ensuring a rule puts it in, touches no other entry, keeps the order of the others and adds an entry only where there was none. |
| `DnsRules.DropMeaning` | controlplane/internal/kubevirt/dns_proxy.go:306-320 | Removing a rule leaves no entry of the name, touches no other, and changes nothing if and only if there was none. |
| `DnsRules.ReplaceOrAppend` | controlplane/internal/kubevirt/dns_proxy.go:254-268 | The in-place replacement loop computes the specified list. |
| `DnsRules.FilterOut` | controlplane/internal/kubevirt/dns_proxy.go:306-316 | The filtering loop computes the specified list. |
| `DnsRules.Attempt` | controlplane/internal/kubevirt/dns_proxy.go:230-324 | One read-modify-write commits the operation exactly once or not at all; a conflict means the version moved; where there is no object a removal succeeds and an ensuring fails; a removal that finds nothing writes nothing; with calls answered and nobody else writing it is accepted. |
| `DnsRules.Call` | controlplane/internal/kubevirt/dns_proxy.go:351-360 | The whole call with its retries: success commits exactly once, failure never; where there is no object a removal succeeds and an ensuring fails; a final conflict means four updates asked for and four by others in between, and no call asks for more; undisturbed it succeeds. |
| `DnsRules.EnsureDNSForwardingRule` | controlplane/internal/kubevirt/dns_proxy.go:215-273 | Commits the tenant's rule under the name made of namespace and cluster, exactly once on success; without a proxy address it does nothing and succeeds; without the object it fails. |
| `DnsRules.RemoveDNSForwardingRule` | controlplane/internal/kubevirt/dns_proxy.go:277-325 | Commits the removal of the rule of the same name; without the object it succeeds. |
| `Upgrade.Driver.UpgradeWorkloadCluster` | controlplane/internal/controller/openshiftassistedcontrolplane_controller.go:620-751 | For every outcome of the pass's calls, given as input, the pass writes, reports and fails exactly as it should, on every path, the deferred condition write included: a push if and only if the running version was read, the push is due and the calls got through, and then the running version is the older one or the two cannot be compared; drift if and only if the running version is the later one; a clear likewise. The updates stored in the pass are that one write or none, so never both. |
| `Upgrade.Driver.Decide` | controlplane/internal/controller/openshiftassistedcontrolplane_controller.go:639-750 | The decision itself, where the work is: its branches write exactly under those guards, store at most that one update, fail exactly when a needed call did, and leave the condition to the deferred write unless they set it. |
| `Upgrade.ConditionTellsTheTruth` | controlplane/internal/controller/openshiftassistedcontrolplane_controller.go:626-690 | After every pass whose reads up to the running version got through, UpgradeCompleted is False if and only if an upgrade is under way or the versions differ, and it reports drift if and only if the running version is the later one by SemVer precedence. |
| `Upgrade.LastTestNeverMet` | controlplane/internal/controller/openshiftassistedcontrolplane_controller.go:734-741 | The last test before a push, that the spec is not newer than what runs, is never met: a version ahead was reported as drift and an equal one as reached. |
| `Upgrade.PushesOnlyUpgrades` | controlplane/internal/controller/openshiftassistedcontrolplane_controller.go:719-751 | Over every run the running version precedes each pushed one when both parse, no push happens while an upgrade is in progress, and a release is asked for by version, anything else by image and by force: read off the step, whose proof for the code is `Upgrade.Driver.Decide`. |
| `Upgrade.ClearsOnlyForeignUpdates` | controlplane/internal/controller/openshiftassistedcontrolplane_controller.go:692-714 | Over every run a clear removes only an update under way that is not ours, that our version does not beat, and never under Unrestricted: read off the step, whose proof for the code is `Upgrade.Driver.Decide`. |
| `Upgrade.NoSecondPushWithoutClear` | controlplane/internal/upgrade/upgrade.go:147-172 | For a fixed request two pushes always have a clear between them, so the write is idempotent. |
| `Upgrade.RequestStands` | controlplane/internal/upgrade/upgrade.go:147-172 | What was pushed stays asked for until it is cleared. |
| `Upgrade.NoPushAfterClear` | controlplane/internal/controller/openshiftassistedcontrolplane_controller.go:692-751 | While what runs never rolls back, nothing is pushed after a clear. |
| `Upgrade.WritesAtMostOnce` | controlplane/internal/controller/openshiftassistedcontrolplane_controller.go:668-751 | Under any policy, for a fixed request, while nobody else touches desiredUpdate, versions never roll back and a busy cluster works towards what it was asked for, the controller writes ClusterVersion at most once: a sufficient condition on the cluster beside the exact one below. |
| `Upgrade.AtMostOneWriteExactlyWhen` | controlplane/internal/controller/openshiftassistedcontrolplane_controller.go:668-751 | Exactly when at most one write is guaranteed: every run of a request writes at most once if and only if the policy is Unrestricted or no running version exists from which the wanted one would be pushed. |
| `Upgrade.UnrestrictedWritesOnce` | controlplane/internal/controller/openshiftassistedcontrolplane_controller.go:668-751 | Under Unrestricted at most one write in every run, with no assumption about the cluster. |
| `Upgrade.NextWriteExactlyWhen` | controlplane/internal/controller/openshiftassistedcontrolplane_controller.go:692-751 | In every run, after a push and before the next write, a pass can write if and only if the guard of the clearing branch holds; after a clear, if and only if that of the pushing branch does. |
| `Upgrade.WritePossibleExactlyWhen` | controlplane/internal/controller/openshiftassistedcontrolplane_controller.go:692-751 | A pass can write if and only if the running version is known and one of the two guards holds. |
| `Upgrade.WritesTwice` | controlplane/internal/controller/openshiftassistedcontrolplane_controller.go:692-714 | For every other policy and every pushable running version, a run with a push and then a clear. |
| `Upgrade.IsUpdateInProgress` | controlplane/internal/upgrade/upgrade.go:89-101 | True if and only if some history entry is partial without completion time or the Progressing condition holds. |
| `Upgrade.GetCurrentVersion` | controlplane/internal/upgrade/upgrade.go:105-116 | The version of the first completed history entry, or none if and only if there is no such entry. |
| `Upgrade.Driver.UpdateDesiredUpdate` | controlplane/internal/upgrade/upgrade.go:147-172 | Stores the wanted update, once, if and only if it is not already asked for and the calls get through; it succeeds if and only if the calls it needs do, and then the update is asked for. |
| `Upgrade.Driver.ClearDesiredUpdate` | controlplane/internal/upgrade/upgrade.go:176-186 | Stores a clear, once, if and only if something is asked for and the calls get through; it succeeds if and only if the calls it needs get through. |
| `Orders.PrecedenceTotal` | controlplane/internal/controller/openshiftassistedcontrolplane_controller.go:779-786 | The comparison of versions is a total order: antisymmetric, transitive, zero only between equal versions. |
| `Orders.CompareMeaning` | controlplane/internal/controller/openshiftassistedcontrolplane_controller.go:675-681 | The comparison is negative if and only if the first version is the older one by section 11 of Semantic Versioning 2.0.0: by the numbers, then a pre-release before its release, numeric identifiers before texts, numbers by value, texts in ASCII order, a longer list after its beginning. |
| `Agents.ExactlyOneInTheEnd` | bootstrap/internal/controller/agent_controller.go:80-153 | From any approvals, once each agent of an InfraEnv label was reconciled at least once, in any order and with any repeats, exactly one is approved, provided names are distinct. |
| `Agents.AtMostOneIsKept` | bootstrap/internal/controller/agent_controller.go:80-117 | At most one approved agent stays at most one under every sequence of reconciles. |
| `Agents.VisitedWinsAlone` | bootstrap/internal/controller/agent_controller.go:80-153 | At any time a reconciled agent that is still approved is the only approved one, and once one was reconciled somebody is approved. |
| `Agents.VisitDecides` | bootstrap/internal/controller/agent_controller.go:92-116 | One reconcile approves the agent exactly when no other one is approved, and touches nobody else's approval. |
| `Agents.FieldsAreOfTheLastVisit` | bootstrap/internal/controller/agent_controller.go:103-116 | Over every sequence of reconciles an agent has the fields of its last successful one. |
| `Agents.SharedNameApprovesTwo` | bootstrap/internal/controller/agent_controller.go:134-153 | Distinct names are needed: for any two agents of a label sharing a name across namespaces there is a complete schedule that approves both. |
| `Agents.Reconciler.CanApproveAgent` | bootstrap/internal/controller/agent_controller.go:134-153 | The search answers true if and only if no agent of another name with the same label is approved. |
| `Agents.Reconciler.SetAgentFields` | bootstrap/internal/controller/agent_controller.go:80-117 | For every outcome of its calls, given as input, a reconcile is one visit: it sets fields and approval if and only if the calls it needs get through, fails otherwise, never touches other agents, and stores an update if and only if something differs. |
| `GoldenImage.ReadyOnlyAfterImport` | controlplane/internal/kubevirt/rhcos_image.go:99-197 | Over every run from nothing the image is marked ready only after, in this order, the URL job was created, its URL read, a claim created, an import job created with that URL while a claim stood, and an import job seen succeeded. |
| `GoldenImage.ReadyClaimIsTheFilledOne` | controlplane/internal/kubevirt/rhcos_image.go:132-165 | When the image is marked ready, the standing claim is the one the succeeded job was created on if and only if no pass created a claim since that job was created. |
| `GoldenImage.OldJobNewClaim` | controlplane/internal/kubevirt/rhcos_image.go:132-165 | It can be another: from any world with a filled claim, its deletion and two passes end with a new claim marked ready. |
| `GoldenImage.MilestonesInOrder` | controlplane/internal/kubevirt/rhcos_image.go:99-197 | At every moment everything that exists was created after what it depends on. |
| `GoldenImage.RetriesKeepDistance` | controlplane/internal/kubevirt/rhcos_image.go:166-221 | When the first one's stamp was stored and the clock never goes back, two retry deletions are more than 299 seconds apart. |
| `GoldenImage.StampRemains` | controlplane/internal/kubevirt/rhcos_image.go:216-221 | A stored stamp is only ever replaced by later ones. |
| `GoldenImage.JustOver299Seconds` | controlplane/internal/kubevirt/rhcos_image.go:201-214 | The bound is tight: a stamp taken just before a full second lets a retry through two nanoseconds after 299 seconds (whole-second truncation, section 5.6 of RFC 3339). |
| `GoldenImage.Provisioner.EnsureGoldenPvc` | controlplane/internal/kubevirt/rhcos_image.go:99-197 | For every outcome of its calls, given as input, one pass is exactly the step that is due: at most one object created or deleted beyond the URL stage, and true is returned if and only if the image is ready. |
| `GoldenImage.Provisioner.EnsureUrlResolved` | controlplane/internal/kubevirt/rhcos_image.go:397-460 | The URL comes from the ConfigMap or from a finished job whose text is not empty; only the URL job and the ConfigMap change; and each outcome of its calls leads to exactly the step that is due, a failed or empty job being deleted. |
| `GoldenImage.Provisioner.RetryImport` | controlplane/internal/kubevirt/rhcos_image.go:166-176 | A failed import is deleted only after the cooldown, the stamp is set only if the update was stored, and once the cooldown is over a retry is made. |
| `GoldenImage.Provisioner.IsJobFailureCooldownElapsed` | controlplane/internal/kubevirt/rhcos_image.go:201-214 | True if and only if there is no stamp, it cannot be read, or more than 300 seconds have passed since. |
| `JsonMerge.DeepMerge` | controlplane/internal/controller/clusterdeployment_controller.go:802-817 | The in-place merge of linked maps, its keys visited in any order, turns the base into the recursive merge of both, stays inside the base's and overlay's own maps, and terminates at any depth. |
| `JsonMerge.MergeAtPath` | controlplane/internal/controller/clusterdeployment_controller.go:800-817 | The law at every path: the overlay wins except where both sides are objects, and the base survives exactly where the overlay is silent and put nothing in the way. |
| `JsonMerge.MergeIdempotent` | controlplane/internal/controller/clusterdeployment_controller.go:800-817 | Applying the same overlay twice equals applying it once. |
| `JsonMerge.AssociativeWhenCompatible` | controlplane/internal/controller/clusterdeployment_controller.go:800-817 | Three merges associate if and only if nowhere a middle value that is no object stands between two objects, unless the last has all keys of the first. |
| `JsonMerge.NotAssociative` | controlplane/internal/controller/clusterdeployment_controller.go:800-817 | Three documents for which the two groupings differ: an object, a null and an empty object under one key. |
| `JsonMerge.AbsorbedWhenKeysWithin` | controlplane/internal/controller/clusterdeployment_controller.go:800-817 | Merging over a value changes nothing of the overlay if and only if every key of the base, at any depth, is in the overlay. |
| `JsonMerge.MergeJson` | controlplane/internal/controller/clusterdeployment_controller.go:783-798 | The whole call, with decoding into maps and encoding back: objects merge, a document that is no object and not null is an error, a null base with a non-empty overlay panics on the nil map. |
| `JsonMerge.DocumentsOutcome` | controlplane/internal/controller/clusterdeployment_controller.go:783-798 | Each outcome exactly when: an error if and only if a document is neither an object nor null, a panic if and only if the first is null and the second a non-empty object, and null or an empty object on one side leaves the other. |
| `JsonMerge.ObjectsAlwaysMerge` | controlplane/internal/controller/clusterdeployment_controller.go:779-798 | Two objects always merge; scalars of the second are in the result, and values the second is silent about are those of the first. |
| `JsonMerge.MergeChild` | controlplane/internal/controller/clusterdeployment_controller.go:809-812 | Recursing into a nested map updates it where it is and leaves the maps under all other keys alone. |
| `ImageFiles.Extract` | pkg/containers/extractor.go:24-82 | The scan from newest to oldest layer with recursion into links answers what a lookup in the flattened image answers; it ends on every link graph; and it answers with a read error if and only if a listing, opening, header, content or closing on its way fails. |
| `ImageFiles.ExtractFileFromImage` | pkg/containers/extractor.go:16-21 | Content is returned only from the file that ends a chain of at most five links, six links are too many, and an error means no image or a failing read on the way. |
| `ImageFiles.ChaseFollowsTheChain` | pkg/containers/extractor.go:25-27 | A lookup succeeds with a content if and only if some chain of few enough links ends at a file with it, and reports too many links if and only if one more link can be followed. |
| `ImageFiles.CyclesAreRefused` | pkg/containers/extractor.go:25-27 | A path leading into a cycle of links is refused, for any bound. |
| `ImageFiles.NewestLayerCounts` | pkg/containers/extractor.go:34-36 | The flattened image shows the first entry of the newest layer that has the path. |
| `ImageFiles.NoLayerNoFile` | pkg/containers/extractor.go:80-81 | It shows nothing where no layer has the path. |
| `ImageFiles.ScanLayer` | pkg/containers/extractor.go:42-73 | Reading a layer's archive stops at the first entry with the path, at its end if there is none, or at the first header that fails before. |
| `ImageFiles.SearchLayers` | pkg/containers/extractor.go:34-79 | Going through the layers from the newest finds the flattened image's entry, or a failing read among the layers visited. |
| `ImageFiles.LinksLead` | pkg/containers/extractor.go:57-60 | An absolute target is where a link leads; a relative one leads on from the link's directory. |
| `ShellQuoting.SingleQuotedIsOneWord` | bootstrap/internal/controller/agent_controller.go:304-306 | For every string, the shell's word reader applied to the single-quoted escaped text yields exactly that string as one word. |
| `ShellQuoting.EscapedReadsAsItself` | bootstrap/internal/controller/agent_controller.go:304-306 | Inside single quotes the escaped text reads as the original, whatever follows. |
| `ShellQuoting.EscapeIsInjective` | bootstrap/internal/controller/agent_controller.go:304-306 | Different strings escape to different texts. |
| `ShellQuoting.FileLineEchoesTheId` | bootstrap/internal/controller/agent_controller.go:228-228 | The line that writes a literal provider ID reads as echo, the ID, a redirection and the path, for every ID. |
| `ShellQuoting.DoubleQuotedUse` | bootstrap/internal/controller/agent_controller.go:216-221 | The double-quoted use of the same text: for IDs without characters special in double quotes it reads back as the ID if and only if the ID has no single quote. |
| `ReleaseKeys.KeysTotal` | hack/resolve_release.py:61-82 | Keys compare as a total order, so all names are totally preordered. |
| `ReleaseKeys.KeyOrderIsPrecedence` | hack/resolve_release.py:61-82 | On names of SemVer versions without a hyphen inside pre-release identifiers the key order is SemVer precedence (section 11 of Semantic Versioning 2.0.0): the smaller key is the older version. |
| `ReleaseKeys.KeyOrderIsUndashedPrecedence` | hack/resolve_release.py:61-82 | On names of all SemVer versions the key order is the precedence of the versions with those hyphens read as dots. |
| `ReleaseKeys.HyphensDisagree` | hack/resolve_release.py:78-81 | So the two can disagree: 1.0.0-a-b and 1.0.0-a.b have equal keys and different precedence. |
| `ReleaseKeys.KeyOfRendered` | hack/resolve_release.py:72-82 | The key of a printed version is its three numbers and the typed pieces of its pre-release, or the top mark. |
| `ReleaseKeys.LatestIsMaximum` | hack/resolve_release.py:85-100 | The directory chosen is not flagged for deletion and a maximum of those that are not; none is chosen if and only if all are flagged. |
| `ReleaseKeys.LatestIsNotOlder` | hack/resolve_release.py:85-100 | Among names of such versions none that is not flagged is later than the one chosen. |
| `ReleaseKeys.LastIsMaximum` | hack/resolve_release.py:100-100 | The last element of the stable sort is a maximum and, of equal maxima, the one listed last. |
| `ReleaseKeys.SortedIsOrdered` | hack/resolve_release.py:100-100 | The sort returns its elements in order; its own contract says they are a permutation. |
| `ScaleUp.AllOrNothing` | controlplane/internal/controller/openshiftassistedcontrolplane_controller.go:1277-1323 | Success adds exactly one infrastructure machine, one bootstrap config and one Machine whose references name the other two; a failure leaves all three sets as they were if and only if no reply is lost and every compensating delete that is owed takes effect. |
| `ScaleUp.CallKeepsMatched` | controlplane/internal/controller/openshiftassistedcontrolplane_controller.go:1277-1323 | Machines and their objects stay matched if and only if the call succeeded, was undone, or lost only the machine's reply and both compensating deletes failed. |
| `ScaleUp.NoOrphans` | controlplane/internal/controller/openshiftassistedcontrolplane_controller.go:1277-1323 | Over any run of calls that succeed or are undone, nothing is orphaned, no reference dangles, and the sets grow by exactly the number of successes. |
| `ScaleUp.Server.ScaleUpControlPlane` | controlplane/internal/controller/openshiftassistedcontrolplane_controller.go:1277-1323 | For every outcome of its creates and deletes, given as input, the call ends in exactly the specified state: what is owed is deleted where the delete gets through, and nothing else is. |
| `ScaleUp.Server.CreateInfraMachine` | controlplane/internal/controller/openshiftassistedcontrolplane_controller.go:1436-1504 | Creates the infrastructure machine under the Machine's name or reports none; nothing is created while the template cannot be prepared. |

## Left out

- Upgrade.WritesAtMostOnce: a sufficient condition on the cluster only; the exact condition on requests is Upgrade.AtMostOneWriteExactlyWhen.
- ShellQuoting.DoubleQuotedUse: says nothing about provider IDs with double quotes, dollars, backquotes or backslashes, because their reading needs the shell's expansions.
- ReleaseKeys.KeyOrderIsPrecedence: ASCII only; Python's isdigit accepts further digits, which SemVer does not allow.
- Controller.Reconciler.Settle: convergence needs calls to be answered, nobody else to move, and the good health that Controller.Healthy spells out. That keeps the code from its own refusals: to remove a last member, to remove under a CORRUPT alarm, to move leadership to a member that may not lead, to act without a usable etcd pod or, where the source leads, without its own. It is sufficient and not necessary in one point: where a machine has to go, or a deleting machine's or no machine's member leads, all staying machines' members must be able to lead, and not just the one that will be asked.
- Controller.Reconciler.ReconcileReplicas: takes the creation of a machine as one call, done, refused or with its reply lost; its three creates and their compensation are ScaleUp's.
- ImageFiles.Extract: the reader of a layer in which the file was found is never closed in the code; open readers are not modelled.
- Empty entries and empty replies inside successful etcd responses (nil members, nil status) are read as failures or skipped in the code and do not occur in the model.
- ClusterVersion changes between two reads of one upgrade pass, and machines deleted by others during one reconcile pass.
- Which of several machines or directories tie is left open where the library leaves it open (map iteration order, equal timestamps).
- Quorum of the etcd cluster: the code does not check it.
- The choice of failure domains (util/failuredomains/failure_domains.go), which a library makes.
- API conversions between versions: field copying around annotation helpers of a library.
- Replica status, up-to-date and health conditions other than UpgradeCompleted: counters over conditions.
- TLS, port forwarding, HTTP, registries, webhooks and manager wiring.
- Generation of manifests, ignition and systemd text, beyond the quoting of provider IDs; label and variable parsing.
- Capability overrides and the empty-string cases before the merge in getInstallConfigOverride.
- The fetching and scanning of directory listings in hack/resolve_release.py.
- controlplane/internal/kubevirt/recovery.go, which is not in use.
- The fields of a DNS rule other than its name, which are one opaque body; and how an agent's role, ignition override and installer arguments are computed, which are one opaque text.
- Deletion of a whole control plane and the creation of the DNS proxy workload itself.
