# VMware HCP agent companion: a verified model

The controller keeps a fleet of vSphere VMs for every `VMwareNodePoolTemplate`: it scales the fleet up
to what a NodePool asks for, within a quota; it labels, names and approves the Agents that boot on the
VMs; it deletes Agents that are unbinding; and a finalizer on each deleted Agent is meant to take the VM
along. This project models those passes in Dafny, call failures included, and proves what they keep.

Each pass appears twice. A total function says what it does to a state given how every call it makes
turns out (an oracle value), and a method in the source's own imperative form is proved to compute that
function. The laws are lemmas about the functions: about one pass, about two passes in a row, and about
every run in which passes, finalizers, users and vSphere take turns.

- `GoFmt`, `Naming`: printing and scanning numbers, and the allocator of the lowest free VM number.
- `Serial`, `Tags`: the serial number derived from a UUID, and the ownership tag.
- `Conditions`, `Capacity`: the condition list, and the capacity and utilisation arithmetic.
- `Resources`, `Fleet`, `VmReconcile`, `PassLaws`: the template's VMs and one pass over them.
- `Agents`, `AgentLaws`, `Matching`, `NodePools`: one pass over the Agents, and the labels it leaves.
- `Lifecycle`, `Links`: deleting a template, the Agent finalizer, and the link it goes by.
- `Outcomes`: what one pass leaves, in terms of what was asked for and what is there.
- `FleetRuns`, `FleetSafety`, `Counts`, `Mishaps`: all runs against vSphere, and runs that go wrong.
- `AgentRuns`: all runs against the Agents.
- `Controller`, `LinkRuns`, `Machines`: a request as one event of the runs; over all runs, whom the links
  name and which machine a finalization takes out.

Where a promise turned out not to hold of the code, the code is modelled as it is, a lemma names an
input or a run that breaks the promise, and the exact condition under which it holds is proved:

- The status is rebuilt without agent names before Agents are processed (controllers/vm_reconcile.go:157-165),
  and a name is recorded only after a second write (controllers/agent.go:474-495). So a pass that rebuilds
  the status and deletes an unbinding Agent leaves the Agent's finalizer no VM to clean up, contrary to the
  comments at controllers/vm_reconcile.go:138-141 and controllers/agent.go:328. A pass that the quota stops
  early (controllers/vm_reconcile.go:52-63) keeps the names: the finalizer then destroys a VM exactly if the
  earlier link was kept and its calls get through. If the pass fails to store its status
  (controllers/vmwarenodepooltemplate_controller.go:322-325), the links from before it stand
  (`Links.LinkSurvivesIff`, `Links.DeletedAgentIsCleanedUpIff`).
- The finalizer looks for a VM by name, and names are used again. It takes out the Agent's own machine, by
  UUID, in the runs in which no pass makes a VM under the name of an old entry without storing its status,
  and no VM is renamed to another's (`Machines.EntriesCurrentIff`, `Machines.FinalizeHitsOwnMachine`).
- A deletion that cannot reach vSphere goes by the stored count, which a failed second listing, or a failed
  destroy whose status was stored, leaves at zero over a VM (`Mishaps.OfflineDeletionOrphans`,
  `Mishaps.FailedDestroyOrphans`). The runs that orphan no VM are exactly those in which no finalizer is
  dropped over a fleet and no edit of folder or prefix, nor a move in vSphere, loses sight of one
  (`FleetRuns.NoOrphansIff`);
  `Counts.CountsHoldInAnyRun` says which outcomes of calls are enough for that.
- The secret call is made with the first VM only and not tried again, and two templates that share a secret
  let go of it too early (`FleetRuns.NormalVMs`, `Mishaps.SharedSecretIsLetGo`). The runs in which every
  fleet's secret is held are exactly those of `FleetRuns.SecretsHeldIff`.
- A VM that was created but not powered on, or a foreign VM with the next free name, makes the loop
  propose the same name until the pass ends (`Fleet.BatchStalls`, `PassLaws.PassConvergesIff`).
- Subtracting in int32 wraps for very negative requests and then passes the quota
  (`VmReconcile.WrappedRequestIgnoresQuota`); `VmReconcile.QuotaHoldsIff` and `VmReconcile.ScalingExact`
  say exactly when.
- Quotients are stored in an int32, so a huge datastore is estimated at nothing
  (`Capacity.TruncationLosesCapacity`, `Capacity.GreatestFitIff`).
- The label selector may name the controller's own labels. Exactly which selectors keep deletion safe,
  let the labels settle, and let the NodePool select its Agents is decided by `AgentRuns.DeletionSafeIff`,
  `AgentLaws.FixpointIff` and `NodePools.SelectionIff`; a template with neither test mode nor a NodePool is
  safe in any case, because its passes return before they look at an Agent
  (controllers/vmwarenodepooltemplate_controller.go:225-236).
- The cleanup annotations are rewritten only when the VM's name changes (controllers/agent.go:460), so an
  edited spec leaves the old ones (`AgentRuns.NotesFollowSpecIff`).
- The test that an unbinding Agent is managed by this template can never fail, because the label was
  just set (`AgentLaws.ClaimTakesOver`).
- The two searches that match an Agent to a VM disagree exactly when the serial of an earlier VM shadows
  the UUID (`Matching.SearchesAgreeIff`).

## Model

| member | source | states |
|---|---|---|
| GoFmt.ScanPrinted | controllers/vm_reconcile.go:413-419 | every int32 printed with `%02d` is read back by `%d`, whatever non-digit text follows it |
| GoFmt.PaddedWidth | controllers/vm_reconcile.go:427 | a printed number has two digits at least, zeros only to fill the width, and its value |
| GoFmt.ScanSigned | controllers/vm_reconcile.go:413-419 | the scanner also takes an explicit plus sign |
| GoFmt.ScanEdges | controllers/vm_reconcile.go:413-419 | white space in front is skipped, a newline is not, numbers beyond int32 and other text are refused |
| Naming.ScanName | controllers/vm_reconcile.go:388-391 | scanning a generated VM name yields its number, also with trailing text |
| Naming.VMNameText | controllers/vm_reconcile.go:388-391 | a VM name is the prefix, "-n", and the number in two digits at least |
| Naming.VMNameInjective | controllers/vm_reconcile.go:388-391 | different numbers give different VM names |
| Naming.GenerateVMName | controllers/vm_reconcile.go:388-391 | the name starts with the prefix and scans back to the index, for every int32 |
| Naming.NextNameIsFresh | controllers/vm_reconcile.go:402-428 | the proposed name is none of the observed ones, wrapped around or not, and short of 2^31 - 1 names its number is at most one more than their count |
| Naming.FirstFree | controllers/vm_reconcile.go:421-425 | the least unused number from a start on, found within as many steps as there are used numbers |
| Naming.CountToFree | controllers/vm_reconcile.go:421-425 | the int32 counting loop always ends, at the least free positive number unless all 2^31 - 1 of them are in use |
| Naming.CollectUsed | controllers/vm_reconcile.go:411-419 | the map filled by the loop holds exactly the numbers that scan from the names |
| Naming.GenerateNextVMName | controllers/vm_reconcile.go:405-428 | the two loops together return the name of the lowest unused number, and it is new |
| Naming.FreeIndicesAreSmallest | controllers/vm_reconcile.go:112-129 | the numbers of a batch are exactly the smallest unused positive ones, in order |
| Naming.FreeIndicesBounded | controllers/vm_reconcile.go:112-129 | no number of a batch exceeds the count in use plus the batch size |
| Naming.BatchNamesDistinct | controllers/vm_reconcile.go:112-129 | for any mix of outcomes the names of a batch differ from each other and from all observed names |
| Serial.UUIDToVMwareSerialNumber | pkg/vsphere/vm.go:546-581 | the two loops and the splice put every character where the positional layout says |
| Serial.SerialText | pkg/vsphere/vm.go:543-581 | a serial is "VMware-" and sixteen pairs of the UUID's non-dash bytes, set apart by spaces and one dash |
| Serial.SerialRoundTrip | pkg/vsphere/vm.go:543-581 | 32 non-dash bytes are recovered from a 54-byte serial with its dash after the eighth pair; any other input gives the empty string |
| Serial.SerialSharedIff | pkg/vsphere/vm.go:543-581 | two UUIDs share a serial exactly when they differ in dashes only |
| Serial.SerialInjective | pkg/vsphere/vm.go:543-581 | on canonical UUID text (section 4 of RFC 9562) the serial is never empty and determines the UUID |
| Tags.OwnerInjective | controllers/vm_reconcile.go:226 | `namespace/name` identifies the template |
| Tags.CreateOptions | controllers/vm_reconcile.go:321-330 | the option list assembled for a VM carries the creating template's tag, in any map order |
| Tags.OptionsAreConfigured | pkg/vsphere/vm.go:112-152 | the options are the user's configuration, with namespace/name under the tag key, then the fixed ones; none lost, none made up |
| Tags.TagRoundTrip | pkg/vsphere/vm.go:112-152 | for any user configuration, even one that sets the tag key, and any iteration order, the tag read back is the creating template |
| Tags.GetVMTag | pkg/vsphere/vm.go:405-420 | the linear search returns the first non-nil value of the tag key |
| Tags.FirstValueAt | pkg/vsphere/vm.go:405-420 | the first entry with the key and a value decides, and without one nothing is found |
| Tags.FirstValueIs | pkg/vsphere/vm.go:405-420 | the search finds a value that all entries of the key agree on |
| Conditions.ConditionList.SetCondition | api/v1alpha1/vmwarenodepooltemplate_types.go:425-448 | updates the type's entry in place or appends it |
| Conditions.ConditionList.GetCondition | api/v1alpha1/vmwarenodepooltemplate_types.go:451-458 | finds the entry of the type, if there is one |
| Conditions.PutLookup | api/v1alpha1/vmwarenodepooltemplate_types.go:435-447 | other types are untouched, and the entry is kept exactly when status, reason and message are unchanged |
| Conditions.SetThenGet | api/v1alpha1/vmwarenodepooltemplate_types.go:425-458 | after a call the type stands at what was set, with a new time and generation only if status, reason or message is new |
| Conditions.LookupType | api/v1alpha1/vmwarenodepooltemplate_types.go:451-458 | what is read is the first entry of the type, if there is one |
| Conditions.ConditionsAreAMap | api/v1alpha1/vmwarenodepooltemplate_types.go:425-458 | after any calls: one entry a type in first-set order, saying what was set last, stamped by the last change |
| Capacity.EstimateIsGreatestFit | pkg/vsphere/resources.go:295-372 | k VMs of the resolved size fit in storage, CPU and memory together if and only if k is at most the estimate |
| Capacity.EstimateHoldsVMsIff | pkg/vsphere/resources.go:295-372 | for given sizes: k times the disk, k times 2000 MHz a CPU and k times the memory are left, in the chosen mode, if and only if k is at most the estimate |
| Capacity.MissingSizesAreDefaults | pkg/vsphere/resources.go:301-349 | a size left out is estimated as 120 GB, two CPUs and 4096 MB |
| Capacity.NoTruncationIff | pkg/vsphere/resources.go:305-353 | no quotient is truncated if and only if each figure is less than 2^31 VMs' worth |
| Capacity.ConsumeLowersEstimate | pkg/vsphere/resources.go:295-372 | creating k of the n estimated VMs leaves an estimate of n - k |
| Capacity.EstimateMonotone | pkg/vsphere/resources.go:295-372 | more free resources never lower the estimate |
| Capacity.EffectiveIsConservative | pkg/vsphere/resources.go:321-327 | allowing for HA overhead never raises the estimate |
| Capacity.TruncationLosesCapacity | pkg/vsphere/resources.go:308 | a quotient of 2^31 is truncated and estimated at nothing |
| Capacity.GreatestFitIff | pkg/vsphere/resources.go:295-372 | the estimate is the number of VMs that fit if and only if that number is an int32 and no quotient is truncated to less |
| Capacity.NonPositiveSizeEstimatesZero | pkg/vsphere/resources.go:295-372 | a size that resolves to zero or less estimates nothing |
| Capacity.DatastoreConserved | pkg/vsphere/resources.go:41-52 | used and free gigabytes add up to the capacity up to one, and the percentage is between 0 and 100 |
| Capacity.DatastoreRounded | pkg/vsphere/resources.go:41-52 | capacity, free and used are the bytes in whole gigabytes, and the percentage is usage in whole percent |
| Capacity.GoDivTruncates | pkg/vsphere/resources.go:41-52 | division truncates toward zero from either side |
| Capacity.ClusterUtilization | pkg/vsphere/resources.go:64-140 | fails with its calls; usage is the sum over hosts and stays in int64, available plus used is the larger of total and used, and the published availability is what the estimate works from |
| Capacity.SumsAdd | pkg/vsphere/resources.go:90-105 | CPU and memory usage are each the sum of the hosts' own figures |
| Fleet.BatchOwned | controllers/vm_reconcile.go:112-129 | whatever fails, every VM of a batch is owned by the template and there are no more than planned |
| Fleet.BatchKeepsNamesUnique | controllers/vm_reconcile.go:112-129 | the loop, proposing taken names or not, leaves a folder in which vSphere refuses them with no name twice |
| Fleet.BatchStalls | controllers/vm_reconcile.go:113-118 | once the next free name is taken, the rest of the pass creates nothing |
| Fleet.StrandedVMEndsThePass | controllers/vm_reconcile.go:378-381 | whatever the calls do, a VM that was not powered on is the last one its pass creates |
| Fleet.BatchCompletesIff | controllers/vm_reconcile.go:112-129 | with every call succeeding, a batch completes if and only if none of its names is taken, and then bears exactly those names |
| Fleet.CurrentMembers | controllers/vm_reconcile.go:215-289 | the listed fleet is exactly the readable VMs of the folder with prefix and tag |
| Outcomes.ListedExactly | controllers/vm_reconcile.go:222-244 | listed are exactly the readable VMs of the folder named after prefix or template whose first tag is namespace/name |
| Outcomes.CreationIs | controllers/vm_reconcile.go:295-384 | a creation makes no VM if refused or the name is taken, and else one of that name, folder and UUID, on exactly if it is reported |
| VmReconcile.GetCurrentVMs | controllers/vm_reconcile.go:200-292 | the listing loop keeps exactly the owned VMs, with the agent last recorded for each |
| Outcomes.ListedAgent | controllers/vm_reconcile.go:259-281 | a listed VM is described by itself and the agent of the first entry with its UUID or name |
| VmReconcile.CreateVM | controllers/vm_reconcile.go:295-384 | makes at most one tagged VM, and reports success only for one that was powered on |
| VmReconcile.CreateVMs | controllers/vm_reconcile.go:112-129 | the creation loop makes the VMs of the batch |
| VmReconcile.RebuildStatus | controllers/vm_reconcile.go:152-179 | the status lists the fleet without agent names and counts it |
| Outcomes.PassOutcome | controllers/vm_reconcile.go:35-185 | on every path: error or not, VMs and secret touched or not, and the stored counts and entries, ready replicas being the number of listed VMs that are on |
| Outcomes.AllReadyIff | controllers/vmwarenodepooltemplate_controller.go:313-320 | ready replicas equal current replicas if and only if every listed VM is on |
| VmReconcile.ReconcileVMs | controllers/vm_reconcile.go:35-185 | VMs, secret finalizer, status and error are those of the pass, on every path |
| VmReconcile.ScalingExact | controllers/vm_reconcile.go:47-50 | the int32 difference is positive exactly for a larger request, if and only if it does not wrap |
| VmReconcile.ToCreateReachesTarget | controllers/vm_reconcile.go:50-81 | VMs are created exactly below the smaller of request and quota, and as many as are missing |
| VmReconcile.WrappedRequestIgnoresQuota | controllers/vm_reconcile.go:47-81 | the most negative request asks for 2^31 - 1 VMs under a quota of two |
| VmReconcile.QuotaHoldsIff | controllers/vm_reconcile.go:47-81 | for every request below the quota, what is created stays within it if and only if the subtraction does not wrap |
| PassLaws.PassWithinQuota | controllers/vm_reconcile.go:44-135 | under every pattern of failures nothing is deleted, and the fleet ends no larger than before or than request and quota allow plus the VMs the listing missed |
| PassLaws.PassConvergesIff | controllers/vm_reconcile.go:44-135 | with all calls succeeding, one pass reaches the target if and only if no VM of the folder holds a needed name, using the smallest free numbers |
| Outcomes.RequestIsMetIff | controllers/vmwarenodepooltemplate_controller.go:288-312 | with all calls succeeding, one pass of a live template brings the fleet to what the NodePool asks for, within the quota, if and only if no needed name is held, whatever was stored before |
| Outcomes.RequestBounds | controllers/vmwarenodepooltemplate_controller.go:288-312 | under every failure the fleet stays within that request plus missed VMs, and at it nothing is made, whatever was stored before |
| Outcomes.ProceedOutcome | controllers/vmwarenodepooltemplate_controller.go:288-335 | a pass that goes through stores what was asked for, the counts of its pass over the VMs and the links recorded |
| Outcomes.NormalOutcome | controllers/vmwarenodepooltemplate_controller.go:140-335 | on the other courses VMs stay, and the status too but for a request of none without a NodePool |
| PassLaws.SettledPassCreatesNothing | controllers/vm_reconcile.go:44-150 | at its target a fleet and its secret are left alone whatever the calls do |
| PassLaws.ReadyMeansAllOn | controllers/vm_reconcile.go:167-172 | the ready count equals the fleet's size exactly when every VM is on |
| PassLaws.PassLeavesOthers | controllers/vm_reconcile.go:222-256 | a pass leaves every other template's fleet unchanged, even with the same prefix and folder |
| PassLaws.FleetsDisjoint | controllers/vm_reconcile.go:222-256 | fleets of different templates have no VM in common |
| PassLaws.CreatedVMIsListed | controllers/vm_reconcile.go:223-244 | a created VM appears in its template's next complete listing |
| Agents.BuildLookups | controllers/agent.go:182-197 | the maps give each identifier the name of the last VM that has it |
| AgentLaws.MatchesIff | controllers/agent.go:203-230 | an Agent matches if and only if an entry has its vendor UUID, its system UUID if it reports no vendor one, or its serial |
| AgentLaws.HostnameIs | controllers/agent.go:407-422 | the hostname is of the last entry by UUID, else the last by serial, else the Agent's own name |
| Agents.ApplyUserLabels | controllers/agent.go:355-361 | the resulting labels and the update flag do not depend on the map's iteration order |
| Agents.ApplyLabels | controllers/agent.go:349-405 | user labels, then pool label, then the sticky binding label |
| Agents.ClaimAgent | controllers/agent.go:243-264 | the first write sets finalizer and managed-by label and is needed exactly when one is missing |
| Agents.DecideAgent | controllers/agent.go:277-342 | which Agents are deleted, left alone or processed |
| Agents.DressAgent | controllers/agent.go:344-471 | the second write and whether it is needed |
| Agents.ReconcileAgent | controllers/agent.go:203-496 | two guarded writes, a deletion at most, for every pattern of failures |
| Agents.RecordAgent | controllers/agent.go:487-494 | the first entry of the Agent's machine gets the Agent's name |
| AgentLaws.RecordedAtFirst | controllers/agent.go:487-494 | the name goes to the first entry of the Agent's machine and nothing else changes |
| Agents.GetAgentNamespace | controllers/agent.go:111-148 | the namespace of the first HostedCluster, or the template's own on every other path |
| Agents.ReconcileAgents | controllers/agent.go:157-503 | the stored Agents of the namespace looked up and the VM status after a whole list, or after a list call that failed; no other namespace changes |
| AgentLaws.ClaimTakesOver | controllers/agent.go:254-306 | after the first write the Agent is always managed by this template, so it is only ever skipped over the pool label |
| AgentLaws.DeletesIff | controllers/agent.go:277-333 | with all calls succeeding, a matching Agent is deleted if and only if it is unbinding or unbound, was bound, and its pool label is the template's, or there is none to compare |
| AgentLaws.BoundThenUnbindingIsDeleted | controllers/agent.go:277-401 | an Agent that one pass saw bound is deleted by the next that sees it unbinding or unbound, whatever the selector |
| AgentLaws.PassWritesBack | controllers/agent.go:243-475 | every other matching Agent ends with finalizer, labels, hostname, approval and annotations, and loses nothing; or is only claimed, if it leaves another pool |
| AgentLaws.FailuresChangeNothing | controllers/agent.go:257-475 | a call that fails or is refused leaves what was stored, and no later call is made |
| AgentLaws.DressedLabelRead | controllers/agent.go:349-405 | what every label reads after the second write |
| AgentLaws.FixpointIff | controllers/agent.go:247-475 | a second pass sends no update, for every Agent, if and only if the selector does not fight the controller's labels or no pass gets to the Agents |
| AgentLaws.SecondPassSparesIff | controllers/agent.go:281-401 | a pass over an Agent that is not both bound and unbinding never prepares its deletion, if and only if the selector leaves the binding label alone |
| AgentLaws.DeletionAwaitsFinalizer | controllers/agent.go:245-333 | a deleted Agent stays, marked and with the cleanup finalizer |
| Matching.MatchNamesAVM | controllers/agent.go:407-422 | a matching Agent is given the name of a VM it shares an identifier with, never its own |
| Matching.SearchesAgreeIff | controllers/agent.go:407-494 | hostname and recorded entry are of the same VM if and only if no earlier VM's serial shadows the UUID |
| Matching.HostnamesDistinct | controllers/agent.go:407-431 | Agents that share no VM get different hostnames |
| NodePools.BuildMatchLabels | controllers/nodepool.go:127-138 | the loop builds the pool label with the user's labels over it, in any order |
| NodePools.NodePool.EnsureMatchLabels | controllers/nodepool.go:109-152 | labels are set only where there were none |
| NodePools.SelectionIff | controllers/nodepool.go:127-143 | every labelled Agent satisfies the match labels if and only if the selector is compatible with the pool |
| Lifecycle.ReconcileDelete | controllers/vmwarenodepooltemplate_controller.go:337-430 | VMs, secret and stored template after a deletion pass, on every path |
| Outcomes.DeletedStatus | controllers/vmwarenodepooltemplate_controller.go:337-405 | a deletion pass stores a request for none and what it listed, or nothing |
| Lifecycle.ReconcileAgentFinalizer | controllers/vmwarenodepooltemplate_controller.go:433-636 | VMs, stored template and finalizer after finalizing an Agent, on every path, a destroy that fails after switching the VM off included |
| Lifecycle.ReleasedIff | controllers/vmwarenodepooltemplate_controller.go:433-636 | a deleted Agent is let go if and only if its update succeeds, unless the template could not be read, whatever became of the VM |
| Lifecycle.FinalizedTemplate | controllers/vmwarenodepooltemplate_controller.go:609-619 | the stored status loses exactly the Agent's entries and counts the rest |
| Lifecycle.UnlinkedEach | controllers/vmwarenodepooltemplate_controller.go:610-616 | entry by entry, those of the Agent are struck off and the others stay in their places |
| Lifecycle.FirstLinked | controllers/vmwarenodepooltemplate_controller.go:507-513 | the VM looked for is that of the first entry with the Agent's name |
| Lifecycle.FinalizeDestroysExactly | controllers/vmwarenodepooltemplate_controller.go:505-586 | the one VM that goes is named by the first entry with the Agent's name, readable, and tagged with the template's namespace/name |
| Lifecycle.AnnotationDestroysExactly | controllers/vmwarenodepooltemplate_controller.go:487-599 | without the template it goes by the annotated name, exactly if the calls get through |
| Lifecycle.FinalizeDestroysIff | controllers/vmwarenodepooltemplate_controller.go:505-586 | with the template at hand a VM is destroyed exactly when the status links it, the tag matches and the calls succeed |
| Lifecycle.FinalizeLeavesOthers | controllers/vmwarenodepooltemplate_controller.go:554-586 | at most one VM goes, and none of another template |
| Lifecycle.FinalizeIsOnce | controllers/vmwarenodepooltemplate_controller.go:609-632 | a finalizer that runs again after its status was stored destroys nothing |
| Lifecycle.RemovedMultiset | pkg/vsphere/vm.go:327-337 | destroying takes out one VM and keeps all others |
| Lifecycle.AnnotationPathDestroysNamed | controllers/vmwarenodepooltemplate_controller.go:487-599 | without the template only a VM of the annotated name is destroyed or switched off |
| Links.LinkSurvivesIff | controllers/agent.go:474-495 | after a pass over any status and any Agents of different names, an Agent is linked to a VM if and only if this pass rewrote it and no later one took over its entry, or an earlier link was kept |
| Links.RewrittenIsLinked | controllers/agent.go:474-495 | a rewritten Agent is linked if no later Agent of the list matches its machine |
| Links.DeletedAgentIsCleanedUpIff | controllers/vmwarenodepooltemplate_controller.go:505-586 | after any pass without errors whose status is stored, finalizing an Agent that it deleted or found in order destroys a VM if and only if the quota stopped the pass, an earlier link was kept, and the calls get through; if it is not stored, if and only if they get through to the VM linked before |
| Links.RightLinkIsKept | controllers/agent.go:474-495 | a link at an entry that no other Agent matches is not taken over |
| Links.PassIsWellIdentified | controllers/vm_reconcile.go:156-165 | a rebuilt status has distinct names, UUIDs and derived serials when UUIDs and names in vSphere are distinct, and names stay so |
| FleetRuns.NoOrphansIff | controllers/vmwarenodepooltemplate_controller.go:337-430 | for every run: a VM tagged for a template never lacks the template and its finalizer, if and only if no finalizer is dropped over a fleet and no edit or move loses sight of one |
| FleetRuns.NoOrphansDeleteIff | controllers/vmwarenodepooltemplate_controller.go:358-426 | a deletion pass orphans no VM if and only if, when its guard drops the finalizer, the fleet is empty |
| FleetRuns.NoOrphansEditIff | controllers/vm_reconcile.go:222-244 | an edit of folder or prefix orphans no VM if and only if every VM fits the new ones |
| FleetRuns.NoOrphansMoveIff | controllers/vm_reconcile.go:222-244 | a VM moved or renamed in vSphere is orphaned if and only if it no longer fits its template's folder or prefix |
| FleetRuns.DeleteStep | controllers/vmwarenodepooltemplate_controller.go:337-426 | a deletion pass makes and destroys no VM, and lets go of finalizer and secret under exactly the stated guards |
| FleetRuns.NormalVMs | controllers/vm_reconcile.go:83-99 | a pass makes VMs only under the finalizer, and puts the one on the secret only if it lists no VM |
| FleetRuns.SecretsHeldIff | controllers/vmwarenodepooltemplate_controller.go:731-780 | for every run that orphans no VM: the secret of every template with VMs keeps its finalizer, if and only if it is held with the first VM, let go only without a fleet to refer to it, and held when a fleet is pointed at it |
| FleetRuns.OwnSecretIsKept | controllers/vmwarenodepooltemplate_controller.go:414-419 | with one template a secret, letting go is safe if the empty listing missed no VM |
| Mishaps.SharedSecretIsLetGo | controllers/vmwarenodepooltemplate_controller.go:414-419 | a run from nothing in which deleting one template lets go of the secret under the other's fleet |
| Counts.CountsHoldInAnyRun | controllers/vmwarenodepooltemplate_controller.go:358-392 | in every run whose listings are complete and stored, and whose finalizers strike off only what is gone, no stored count is zero over a fleet and no VM is orphaned, offline or not |
| Counts.FailedDestroyMiscounts | controllers/vmwarenodepooltemplate_controller.go:609-619 | when the only entry is struck off and its VM not destroyed, the VM stays, the count is zero, and an offline deletion orphans it |
| Mishaps.FailedDestroyOrphans | controllers/vmwarenodepooltemplate_controller.go:569-619 | a run from nothing, with a real link, that ends so after a failed destroy |
| FleetSafety.FleetBoundedInAnyRun | controllers/vm_reconcile.go:44-135 | in every run a fleet stays within its first size or the most ever asked for within the quota, VMs missed by a listing on top |
| FleetSafety.QuotaInAnyRun | api/v1alpha1/vmwarenodepooltemplate_types.go:486-491 | a fixed quota, plus what the worst listing missed, bounds the fleet in every run, whatever the NodePool asks for |
| FleetSafety.PassesLeaveOtherFleets | controllers/vm_reconcile.go:200-292 | passes and deletions of one template leave every other fleet unchanged in any world |
| FleetSafety.DeletingFleetShrinks | controllers/vmwarenodepooltemplate_controller.go:124-126 | once a template is marked deleted its fleet only shrinks, in every run and under every failure |
| FleetSafety.FinalizerGoesLast | controllers/vmwarenodepooltemplate_controller.go:408-426 | on the online path the finalizer goes only when every VM left could not be read |
| FleetSafety.SightBringsNone | controllers/vm_reconcile.go:222-244 | an edit that keeps sight of the fleet leaves it the same |
| FleetSafety.MoveBringsNone | controllers/vm_reconcile.go:222-244 | where no VM is orphaned, no move brings one into view |
| Mishaps.OfflineDeletionOrphans | controllers/vmwarenodepooltemplate_controller.go:358-392 | a run from nothing in which the offline shortcut leaves a VM without its template |
| AgentRuns.DeletionSafeInAnyRun | controllers/agent.go:281-333 | in every run, under every pattern of failing updates, a delete request hits the very Agent that was listed, which an earlier pass saw bound, is unbinding, and carries finalizer, managed-by and pool labels |
| AgentRuns.ConsistentInAnyRun | controllers/agent.go:243-264 | in every run, a listed copy that carries the cleanup finalizer still is of the Agent stored by its name |
| AgentRuns.ReleasedKeepsOthers | controllers/vmwarenodepooltemplate_controller.go:621-635 | only the cleanup finalizer goes, and the Agent with it exactly if it held no other |
| AgentRuns.PassIsSafe | controllers/agent.go:157-503 | what ReconcileAgents does to the stored Agents is what a run does in one pass, so every deletion it asks for is warranted |
| AgentRuns.DeletionSafeIff | controllers/agent.go:366-401 | every deletion in every run of a template is warranted if and only if its selector leaves the binding label alone or its passes never get to the Agents |
| AgentRuns.BindingsExplainedInAnyRun | controllers/agent.go:375-400 | in every run a binding label goes back to a pass that saw the Agent bound |
| AgentRuns.NotesExplainedInAnyRun | controllers/agent.go:449-471 | in every run, with any templates and edits, cleanup annotations name the hostname, go back to one pass that matched the Agent to that VM, and are of that pass's template; the finalizer is in place |
| AgentRuns.NotesAgreeInRunOf | controllers/agent.go:449-471 | in every run of one template with a fixed spec they agree with it |
| AgentRuns.NotesFollowSpecIff | controllers/agent.go:460-471 | after a second write they agree with the spec if and only if the VM's name changed or they did before |
| AgentRuns.NotesNameTheMatchedVM | controllers/vmwarenodepooltemplate_controller.go:487-599 | in every run, a finalization without the template touches at most a VM of the name that an earlier pass matched the Agent to |
| Controller.ReconcileFleet | controllers/vmwarenodepooltemplate_controller.go:296-312 | VMs, secret, status and Agents after the two passes, the second only after a success of the first |
| Controller.AgentsAfterPass | controllers/vmwarenodepooltemplate_controller.go:296-312 | the Agents are processed exactly if the pass over the VMs returned no error and they could be listed |
| Controller.LinksAreStored | controllers/agent.go:474-495 | the links that the pass over the Agents records are those stored |
| Controller.ReconcileNormal | controllers/vmwarenodepooltemplate_controller.go:140-335 | one pass for a live template is one event of the runs, links included, and leaves the Agents of AgentsPass and the ensured match labels |
| Controller.ReconcileLive | controllers/vmwarenodepooltemplate_controller.go:128-138 | putting the finalizer on first changes nothing of that; failing to ends the pass |
| Controller.Reconcile | controllers/vmwarenodepooltemplate_controller.go:93-138 | a failed read changes nothing; else the request is a template's pass, its deletion, or the finalizer of an Agent of that name and namespace |
| LinkRuns.LinksRightInAnyRun | controllers/agent.go:487-494 | in every run of such passes, a stored link names an Agent that was listed with the UUID or serial of its entry |
| LinkRuns.FinalizeHitsSeenMachine | controllers/vmwarenodepooltemplate_controller.go:505-586 | a finalization that finds the template destroys only a tagged VM named by such an entry |
| Machines.EntriesCurrentIff | controllers/vm_reconcile.go:112-165 | for every run that orphans no VM: no entry ever names a VM with another UUID, if and only if passes that reuse the name of an entry store their rebuilt status and no VM is renamed to one |
| Machines.FinalizeHitsOwnMachine | controllers/vmwarenodepooltemplate_controller.go:505-586 | in such runs a finalization destroys only the machine, by UUID, that an Agent of this name was listed with |

## Left out

- vSphere calls (finders, folders, devices, tasks): each is a step that an oracle lets fail; vSphere refuses a name its folder already holds.
- ISO preparation, credentials and sessions: only whether they succeed matters.
- Events, logs, metrics and the formatted messages of the conditions that the passes set.
- Naming.Plain: prefixes that hold `%` or white space follow directive rules of `fmt.Sscanf` that are not modelled; names of Kubernetes objects, the default prefix, hold neither.
- Naming.CollectUsed: asks for a plain prefix.
- Naming.GenerateNextVMName: asks for a plain prefix.
- VmReconcile.CreateVMs: asks for a plain prefix.
- VmReconcile.ReconcileVMs: asks for a plain prefix.
- Lifecycle.ReconcileDelete: asks for a plain prefix.
- Controller.ReconcileFleet: asks for a plain prefix.
- Controller.ReconcileNormal: asks for a plain prefix.
- Controller.ReconcileLive: asks for a plain prefix.
- Controller.Reconcile: asks for a plain prefix.
- Serial.SerialNumber: one char stands for one byte; text that is not valid UTF-8 is not modelled.
- GetResourcePoolUtilization repeats the arithmetic of GetClusterUtilization without the loop.
- Tags.GetVMTag: a VM whose Config is nil, and option values that are not strings, on which the type assertion would panic, are not modelled.
- A pass over the VMs is atomic: users and vSphere act between passes, not between two creations of one pass. Passes over Agents are interleaved Agent by Agent.
- A listing holds fewer than 2^31 VMs, so the int32 conversion of its length is exact.
- AgentRuns.CanHappen: only the controller writes its labels, finalizer, hostname and annotations, requests are handled one at a time, and no uid is used twice.
- FleetRuns.Enabled: no VM with a template's tag is made by anyone else, and nobody else changes a VM's tag or UUID.
- FleetSafety.AsksAtMost: bounds on fleets over runs assume requests whose int32 difference does not wrap; what a wrapping one does is stated for one pass.
- Malformed unstructured objects: Agents and NodePools are typed records in which a missing string is empty.
- The annotation update inside reconcileNormal appears as an outcome: a rewritten annotation replaces the status in memory by the stored one.
- Polling intervals, resource validation messages, watches and mapping functions.
- VMQuota.Validate: nothing calls it.
- Progress of scale-down: it depends on the NodePool controller.
