/**
 * The stored count of VMs, which a deletion goes by when vSphere is out of reach: which outcomes of
 * calls keep it from saying that there are none while there are some.
 */
module Counts {
  import opened Wrappers
  import opened GoFmt
  import opened Naming
  import opened Tags
  import opened Resources
  import opened Fleet
  import opened VmReconcile
  import opened PassLaws
  import opened Agents
  import opened Lifecycle
  import opened FleetRuns
  import opened FleetSafety

  predicate HasEntry(vs: seq<VMStatus>, name: string) {
    exists i :: 0 <= i < |vs| && vs[i].name == name
  }

  /** A count of zero means no VM, and every VM has an entry. */
  predicate Accounts(status: Status, fleet: seq<VM>) {
    && (status.currentReplicas == 0 ==> fleet == [])
    && forall vm :: vm in fleet ==> HasEntry(status.vmStatus, vm.name)
  }

  predicate Accounted(w: World, k: Key)
    requires k in w.templates
  {
    Accounts(w.templates[k].status, Owned(w.vms, k, w.templates[k].spec))
  }

  predicate AllAccounted(w: World) {
    forall k :: k in w.templates ==> Accounted(w, k)
  }

  /** The listing misses no VM of the fleet. */
  predicate Sees(vms: seq<VM>, k: Key, spec: Spec, hidden: set<VM>) {
    Current(vms, k, spec, hidden) == Owned(vms, k, spec)
  }

  /** The finalizer gets to strike the Agent's entries off the stored status. */
  predicate StrikesOff(t: Template, a: Agent, o: FinalizerOracle) {
    && AgentCleanup in a.finalizers && a.deleting && ManagedBy in a.labels && !o.getFails && o.statusOk
    && LinkedVM(t.status.vmStatus, a.name).Some?
  }

  /** No VM of the fleet bears a name that is struck off. */
  predicate StruckOffAreGone(fleet: seq<VM>, vs: seq<VMStatus>, agentName: string) {
    forall vm, v :: vm in fleet && v in vs && v.agentName == agentName ==> vm.name != v.name
  }

  /**
   * What the count rests on: listings that end up in the status are complete, a pass that makes VMs
   * gets to list and store them, what a finalizer strikes off is gone, edits and moves keep sight of the
   * fleet, and a VM that is renamed takes a name that has an entry.
   */
  predicate Truthful(w: World, e: Event) {
    match e
    case ReconcileTemplate(k, o) =>
      k in w.templates && o.course.Proceed? ==>
        && (Makes(w, k, o) != [] ==> o.vm.relisted && o.statusOk)
        && (o.statusOk ==>
              && Sees(w.vms, k, w.templates[k].spec, o.vm.hidden)
              && Sees(NormalPass(w, k, o).vms, k, w.templates[k].spec, o.vm.rehidden))
    case DeleteTemplate(k, o) =>
      k in w.templates && o.reachable && o.statusOk ==> Sees(w.vms, k, w.templates[k].spec, o.vm.hidden)
    case ReleaseAgent(a, namespace, o) =>
      var k := TemplateKey(a, namespace);
      k in w.templates && StrikesOff(w.templates[k], a, o) ==>
        var left := Owned(Release(w, a, namespace, o).vms, k, w.templates[k].spec);
        StruckOffAreGone(left, w.templates[k].status.vmStatus, a.name)
    case EditTemplate(k, spec) => k in w.templates ==> KeepsSight(w, k, spec)
    case VMMoves(i, folder, name) =>
      i < |w.vms| ==>
        && StaysInSight(w, w.vms[i], folder, name)
        && forall k :: k in w.templates && TaggedFor(w.vms[i], k) ==> HasEntry(w.templates[k].status.vmStatus, name)
    case _ => true
  }

  /* ---------- one step ---------- */

  /** The names of the one fleet are among those of the other. */
  predicate NamesWithin(fleet: seq<VM>, other: seq<VM>) {
    forall vm :: vm in fleet ==> exists u :: u in other && u.name == vm.name
  }

  lemma AccountsWithin(status: Status, fleet: seq<VM>, other: seq<VM>)
    requires Accounts(status, other) && NamesWithin(fleet, other)
    ensures Accounts(status, fleet)
  {
    if fleet != [] {
      assert fleet[0] in fleet;
    }
  }

  lemma RebuiltAccounts(status: Status, fleet: seq<VM>)
    ensures Accounts(Rebuilt(status, fleet), fleet)
  {
    hide ReadyCount;
    forall vm | vm in fleet ensures HasEntry(Entries(fleet), vm.name) {
      var i :| 0 <= i < |fleet| && fleet[i] == vm;
      assert Entries(fleet)[i].name == vm.name;
    }
  }

  /** A pass over the VMs leaves a status that accounts for its fleet. */
  lemma PassAccounts(vms: seq<VM>, held: set<SecretRef>, k: Key, spec: Spec, status: Status, o: VmOracle)
    requires Accounts(status, Owned(vms, k, spec))
    requires NewVMs(vms, k, spec, status.desiredReplicas, o) != [] ==> o.relisted
    requires Sees(vms, k, spec, o.hidden)
    requires Sees(VmPass(vms, held, k, spec, status, o).vms, k, spec, o.rehidden)
    ensures var out := VmPass(vms, held, k, spec, status, o); Accounts(out.status, Owned(out.vms, k, spec))
  {
    var fleet := Owned(vms, k, spec);
    RebuiltAccounts(status, fleet);
    RebuiltAccounts(status, Owned(VmPass(vms, held, k, spec, status, o).vms, k, spec));
    hide Current, NewVMs, Rebuilt, HeldAfter, HasEntry, Scaling, QuotaReached;
    assert vms + [] == vms;
    CountedAccounts(status, fleet);
  }

  lemma CountedAccounts(status: Status, fleet: seq<VM>)
    requires Accounts(status, fleet)
    ensures Accounts(status.(currentReplicas := |fleet|), fleet)
  {
  }

  lemma RelinkedAccounts(status: Status, links: seq<string>, fleet: seq<VM>)
    requires Accounts(status, fleet)
    ensures Accounts(Relinked(status, links), fleet)
  {
    forall vm | vm in fleet ensures HasEntry(Relinked(status, links).vmStatus, vm.name) {
      var i :| 0 <= i < |status.vmStatus| && status.vmStatus[i].name == vm.name;
      assert Relinked(status, links).vmStatus[i].name == vm.name;
    }
  }

  lemma AccountedReconcile(w: World, k: Key, o: NormalOracle)
    requires k in w.templates && Accounted(w, k) && Truthful(w, ReconcileTemplate(k, o))
    requires ValidPlan(o.vm.plan, k, w.templates[k].spec)
    ensures k in NormalPass(w, k, o).templates && Accounted(NormalPass(w, k, o), k)
  {
    var t := w.templates[k];
    assert w.vms + [] == w.vms;
    if (t.finalizer || o.finalizerOk) && o.course.Proceed? {
      var start := StartStatus(t, o.course);
      PassAppends(w.vms, w.held, k, t.spec, start, o.vm);
      var out := VmPass(w.vms, w.held, k, t.spec, start, o.vm);
      assert Accounts(start, Owned(w.vms, k, t.spec));
      if o.statusOk {
        PassAccounts(w.vms, w.held, k, t.spec, start, o.vm);
        RelinkedAccounts(out.status, o.links, Owned(out.vms, k, t.spec));
      }
    }
    hide VmPass, NewVMs, Current, Relinked, Accounts, ValidPlan;
  }

  lemma AccountedDelete(w: World, k: Key, o: DeleteOracle)
    requires Enabled(w, Event.DeleteTemplate(k, o)) && Accounted(w, k) && Truthful(w, Event.DeleteTemplate(k, o))
    ensures Accounted(Apply(w, Event.DeleteTemplate(k, o)), k)
  {
    var t := w.templates[k];
    var start := t.status.(desiredReplicas := 0);
    DeletingPassCreatesNothing(w.vms, w.held, k, t.spec, start, o.vm);
    DeletingStatus(w.vms, w.held, k, t.spec, start, o.vm);
    RebuiltAccounts(start, Owned(w.vms, k, t.spec));
    hide VmPass, Current, Rebuilt, ValidPlan, HasEntry, SecretOf;
  }

  lemma DeletingStatus(vms: seq<VM>, held: set<SecretRef>, k: Key, spec: Spec, status: Status, o: VmOracle)
    requires |vms| <= MAX_INT32 && status.desiredReplicas == 0
    ensures VmPass(vms, held, k, spec, status, o).status ==
            if o.listed then Rebuilt(status, Current(vms, k, spec, o.hidden)) else status
  {
    hide Current, Rebuilt;
    assert !Scaling(0, |Current(vms, k, spec, o.hidden)|);
  }

  lemma {:induction false} LeftEntries(vs: seq<VMStatus>, agentName: string, name: string)
    requires HasEntry(vs, name)
    requires forall v :: v in vs && v.agentName == agentName ==> v.name != name
    ensures HasEntry(Unlinked(vs, agentName), name)
  {
    UnlinkedKeepsOthers(vs, agentName);
    hide Unlinked;
    var i :| 0 <= i < |vs| && vs[i].name == name;
    assert vs[i] in vs;
    var left := Unlinked(vs, agentName);
    assert vs[i] in left;
    var j :| 0 <= j < |left| && left[j] == vs[i];
  }

  /** What the finalizer leaves of the status accounts for what is left of the fleet. */
  lemma UnlinkedAccounts(status: Status, agentName: string, fleet: seq<VM>)
    requires Accounts(status, fleet) && StruckOffAreGone(fleet, status.vmStatus, agentName)
    ensures var left := Unlinked(status.vmStatus, agentName);
            Accounts(status.(vmStatus := left, currentReplicas := |left|), fleet)
  {
    hide HasEntry;
    var left := Unlinked(status.vmStatus, agentName);
    forall vm | vm in fleet ensures HasEntry(left, vm.name) {
      LeftEntries(status.vmStatus, agentName, vm.name);
    }
    if fleet != [] {
      assert fleet[0] in fleet;
      EntryMeansSome(left, fleet[0].name);
    }
  }

  lemma EntryMeansSome(vs: seq<VMStatus>, name: string)
    requires HasEntry(vs, name)
    ensures |vs| > 0
  {
  }

  lemma KeptNames(vms: seq<VM>, vms': seq<VM>, k: Key, spec: Spec)
    requires forall vm :: vm in vms' ==> Kept(vm, vms)
    ensures NamesWithin(Owned(vms', k, spec), Owned(vms, k, spec))
  {
    CurrentMembers(vms, k, spec, {});
    CurrentMembers(vms', k, spec, {});
    hide Current, OwnedBy;
    forall vm | vm in Owned(vms', k, spec) ensures exists u :: u in Owned(vms, k, spec) && u.name == vm.name {
      var on :| vm.(poweredOn := on) in vms;
      OwnershipIgnoresPower(vm, on, k, spec);
      assert vm.(poweredOn := on) in Owned(vms, k, spec);
    }
  }

  /** The status of a template after a release: that of Finalize, or what it was. */
  lemma ReleasedStatus(w: World, a: Agent, namespace: string, o: FinalizerOracle, k: Key)
    requires k in w.templates && k in Release(w, a, namespace, o).templates
    ensures var status, t := Release(w, a, namespace, o).templates[k].status, w.templates[k];
            var left := Unlinked(t.status.vmStatus, a.name);
            status == if k == TemplateKey(a, namespace) && StrikesOff(t, a, o)
                      then t.status.(vmStatus := left, currentReplicas := |left|) else t.status
  {
    hide LinkedVM, Unlinked, AfterDestroy, Lookup;
  }

  lemma AccountedRelease(w: World, a: Agent, namespace: string, o: FinalizerOracle, k: Key)
    requires k in w.templates && Accounted(w, k) && Truthful(w, ReleaseAgent(a, namespace, o))
    ensures k in Release(w, a, namespace, o).templates && Accounted(Release(w, a, namespace, o), k)
  {
    hide Release, Current, Unlinked, LinkedVM, HasEntry;
    var t, w' := w.templates[k], Release(w, a, namespace, o);
    ReleaseStep(w, a, namespace, o);
    ReleasedStatus(w, a, namespace, o, k);
    KeptNames(w.vms, w'.vms, k, t.spec);
    AccountsWithin(t.status, Owned(w'.vms, k, t.spec), Owned(w.vms, k, t.spec));
    if k == TemplateKey(a, namespace) && StrikesOff(t, a, o) {
      UnlinkedAccounts(t.status, a.name, Owned(w'.vms, k, t.spec));
    }
  }

  /** Among tagged VMs, those that an edited spec finds are those that the template had. */
  lemma EditedFleet(w: World, k: Key, spec: Spec)
    requires NoOrphans(w) && k in w.templates
    ensures NamesWithin(Owned(w.vms, k, spec), Owned(w.vms, k, w.templates[k].spec))
  {
    hide OwnedBy, TaggedFor, ValidKey, Current;
    CurrentMembers(w.vms, k, spec, {});
    CurrentMembers(w.vms, k, w.templates[k].spec, {});
    forall vm | vm in Owned(w.vms, k, spec) ensures vm in Owned(w.vms, k, w.templates[k].spec) {
      OwnedIsTagged(vm, k, spec);
      assert Anchored(vm, k, w);
    }
  }

  /** A template without VMs of its own is accounted for, whatever its status says. */
  lemma NoFleetAccounted(status: Status, fleet: seq<VM>)
    requires fleet == []
    ensures Accounts(status, fleet)
  {
  }

  lemma NewTemplateHasNoFleet(w: World, k: Key, spec: Spec)
    requires NoOrphans(w) && k !in w.templates && ValidKey(k)
    ensures Owned(w.vms, k, spec) == []
  {
    hide OwnedBy, TaggedFor, ValidKey, Current;
    CurrentMembers(w.vms, k, spec, {});
    if Owned(w.vms, k, spec) != [] {
      OwnedIsTagged(Owned(w.vms, k, spec)[0], k, spec);
    }
  }

  /** A VM that is moved within sight, to a name that has an entry, is accounted for as before. */
  lemma AccountedMove(w: World, i: nat, folder: string, name: string, k: Key)
    requires NoOrphans(w) && i < |w.vms| && Truthful(w, VMMoves(i, folder, name))
    requires k in w.templates && Accounted(w, k)
    ensures Accounted(Apply(w, VMMoves(i, folder, name)), k)
  {
    hide TaggedFor, ValidKey, Current, Prefix, HasEntry;
    var w', t := Apply(w, VMMoves(i, folder, name)), w.templates[k];
    var moved := w.vms[i].(folder := folder, name := name);
    CurrentMembers(w.vms, k, t.spec, {});
    CurrentMembers(w'.vms, k, t.spec, {});
    forall vm | vm in Owned(w'.vms, k, t.spec)
      ensures HasEntry(t.status.vmStatus, vm.name) && t.status.currentReplicas != 0
    {
      if vm in w.vms {
        assert vm in Owned(w.vms, k, t.spec);
      } else {
        assert vm == moved;
        MovedTag(w.vms[i], folder, name, k);
        assert Anchored(w.vms[i], k, w);
        assert w.vms[i] in Owned(w.vms, k, t.spec);
      }
    }
    if Owned(w'.vms, k, t.spec) != [] {
      assert Owned(w'.vms, k, t.spec)[0] in Owned(w'.vms, k, t.spec);
    }
  }

  /** Users and vSphere leave no template with a VM of a new name. */
  lemma AccountedEnvironment(w: World, e: Event, k: Key)
    requires NoOrphans(w) && AllAccounted(w) && Environment(e) && Enabled(w, e) && k in Apply(w, e).templates
    ensures Accounted(Apply(w, e), k)
  {
    hide Accounts, Current, OwnedBy, TaggedFor, Foreign;
    if e.CreateTemplate? && e.k == k {
      NewTemplateHasNoFleet(w, k, e.spec);
      NoFleetAccounted(NEW_STATUS, Owned(w.vms, k, e.spec));
    } else {
      assert Accounted(w, k);
      var spec := w.templates[k].spec;
      EnvironmentNames(w, e, k, spec);
      AccountsWithin(w.templates[k].status, Owned(Apply(w, e).vms, k, spec), Owned(w.vms, k, spec));
    }
  }

  lemma EnvironmentNames(w: World, e: Event, k: Key, spec: Spec)
    requires Environment(e) && Enabled(w, e) && ValidKey(k)
    ensures NamesWithin(Owned(Apply(w, e).vms, k, spec), Owned(w.vms, k, spec))
  {
    EnvironmentStep(w, e);
    var w' := Apply(w, e);
    CurrentMembers(w.vms, k, spec, {});
    CurrentMembers(w'.vms, k, spec, {});
    hide Apply, Current, OwnedBy, TaggedFor, ValidKey, Enabled;
    forall vm | vm in Owned(w'.vms, k, spec) ensures exists u :: u in Owned(w.vms, k, spec) && u.name == vm.name {
      OwnedIsTagged(vm, k, spec);
      if vm !in w.vms {
        var on :| vm.(poweredOn := on) in w.vms;
        OwnershipIgnoresPower(vm, on, k, spec);
        assert vm.(poweredOn := on) in Owned(w.vms, k, spec);
      }
    }
  }

  /** One truthful step: counts stay true, and so no VM is orphaned. */
  lemma AccountedStep(w: World, e: Event)
    requires NoOrphans(w) && AllAccounted(w) && Enabled(w, e) && Truthful(w, e)
    ensures Sound(w, e)
    ensures AllAccounted(Apply(w, e))
  {
    TruthfulIsSound(w, e);
    var w' := Apply(w, e);
    forall k | k in w'.templates ensures Accounted(w', k) {
      AccountedTemplate(w, e, k);
    }
    hide Accounted, Apply, NoOrphans, Enabled, Truthful, Sound;
  }

  lemma TruthfulIsSound(w: World, e: Event)
    requires AllAccounted(w) && Truthful(w, e)
    ensures Sound(w, e)
  {
    hide Current, KeepsSight;
    if e.DeleteTemplate? && e.k in w.templates {
      assert Accounted(w, e.k);
    }
  }

  lemma AccountedTemplate(w: World, e: Event, k: Key)
    requires NoOrphans(w) && AllAccounted(w) && Enabled(w, e) && Truthful(w, e) && k in Apply(w, e).templates
    ensures Accounted(Apply(w, e), k)
  {
    hide Accounts, Current, NormalPass, DeletePass, Release, ValidKey, TaggedFor, KeepsSight;
    match e {
      case ReconcileTemplate(j, o) =>
        NormalStep(w, j, o);
        if j == k {
          AccountedReconcile(w, k, o);
        } else {
          assert Accounted(w, k);
          PassesLeaveOtherFleets(w, j, o, DeleteOracle(false, o.vm, false, false, false), k, w.templates[k].spec);
        }
      case DeleteTemplate(j, o) =>
        if j == k {
          AccountedDelete(w, k, o);
        } else {
          assert Accounted(w, k);
          DeleteStep(w.vms, w.held, j, w.templates[j], o);
        }
      case ReleaseAgent(a, namespace, o) =>
        ReleaseStep(w, a, namespace, o);
        assert Accounted(w, k);
        AccountedRelease(w, a, namespace, o, k);
      case EditTemplate(j, spec) =>
        assert Accounted(w, k);
        if j == k {
          EditedFleet(w, k, spec);
          AccountsWithin(w.templates[k].status, Owned(w.vms, k, spec), Owned(w.vms, k, w.templates[k].spec));
        }
      case VMMoves(i, folder, name) =>
        assert Accounted(w, k);
        AccountedMove(w, i, folder, name, k);
      case _ => AccountedEnvironment(w, e, k);
    }
  }

  /**
   * Over all runs whose calls are truthful, no stored count is ever zero over a fleet, and so even a
   * deletion that cannot reach vSphere orphans no VM.
   */
  lemma {:induction false} CountsHoldInAnyRun(ws: seq<World>, es: seq<Event>, n: nat)
    requires IsRun(ws, es) && n <= |es|
    requires NoOrphans(ws[0]) && AllAccounted(ws[0])
    requires forall i :: 0 <= i < n ==> Truthful(ws[i], es[i])
    ensures AllAccounted(ws[n]) && NoOrphans(ws[n])
  {
    hide *;
    if n > 0 {
      CountsHoldInAnyRun(ws, es, n - 1);
      RunStep(ws, es, n);
      AccountedStep(ws[n - 1], es[n - 1]);
      NoOrphansStepIff(ws[n - 1], es[n - 1]);
    }
  }

  /** A finalization that does not destroy leaves every VM, switched off perhaps. */
  lemma NotDestroyedStays(vms: seq<VM>, vmName: string, owner: Option<Key>, o: FinalizerOracle, vm: VM)
    requires !Destroys(vmName, owner, o) && vm in vms
    ensures var after := AfterDestroy(vms, vmName, owner, o); vm in after || vm.(poweredOn := false) in after
  {
    hide TaggedFor;
    if o.found.Some? { SwitchedHas(vms, o.found.value, vm); }
  }

  lemma {:induction false} SwitchedHas(vms: seq<VM>, switched: VM, vm: VM)
    requires vm in vms
    ensures vm in SwitchedOff(vms, switched) || vm.(poweredOn := false) in SwitchedOff(vms, switched)
  {
    if vms[0] != switched && vm in vms[1..] {
      SwitchedHas(vms[1..], switched, vm);
    }
  }

  /** The finalizer strikes off the only entry and destroys nothing. */
  predicate StrikesOffOnly(t: Template, k: Key, a: Agent, o: FinalizerOracle) {
    && |t.status.vmStatus| == 1 && t.status.vmStatus[0].agentName == a.name
    && StrikesOff(t, a, o) && !Destroys(t.status.vmStatus[0].name, Some(k), o)
  }

  /**
   * Striking off a VM that is still there is how a count goes wrong: when the finalizer of the Agent with
   * the only entry does not get its VM destroyed, and the status is stored all the same, the count is
   * zero over the VM, and a deletion that cannot reach vSphere then orphans it.
   */
  lemma FailedDestroyMiscounts(w: World, a: Agent, namespace: string, o: FinalizerOracle, vm: VM, d: DeleteOracle)
    requires var k := TemplateKey(a, namespace);
             && NoOrphans(w) && Enabled(w, Event.DeleteTemplate(k, d)) && w.templates[k].finalizer
             && StrikesOffOnly(w.templates[k], k, a, o) && !d.reachable && d.updateOk
             && vm in w.vms && TaggedFor(vm, k)
    ensures var k, w' := TemplateKey(a, namespace), Release(w, a, namespace, o);
            && (vm in w'.vms || vm.(poweredOn := false) in w'.vms)
            && k in w'.templates && w'.templates[k].status.currentReplicas == 0
            && Enabled(w', Event.DeleteTemplate(k, d))
            && !NoOrphans(Apply(w', Event.DeleteTemplate(k, d)))
  {
    var k, w' := TemplateKey(a, namespace), Release(w, a, namespace, o);
    ReleaseStep(w, a, namespace, o);
    NoOrphansRelease(w, a, namespace, o);
    NotDestroyedStays(w.vms, w.templates[k].status.vmStatus[0].name, Some(k), o, vm);
    StruckOffRelease(w, a, namespace, o);
    hide Release, TaggedFor, ValidKey, Current, Destroys, AfterDestroy, StrikesOffOnly, OwnedBy;
    var left := if vm in w'.vms then vm else vm.(poweredOn := false);
    TagIgnoresPower(vm, false, k);
    assert Anchored(left, k, w');
    CurrentMembers(w'.vms, k, w'.templates[k].spec, {});
    assert left in Owned(w'.vms, k, w'.templates[k].spec);
    NoOrphansDeleteIff(w', k, d);
  }

  lemma StruckOffRelease(w: World, a: Agent, namespace: string, o: FinalizerOracle)
    requires var k := TemplateKey(a, namespace);
             k in w.templates && StrikesOffOnly(w.templates[k], k, a, o)
    ensures var k, w' := TemplateKey(a, namespace), Release(w, a, namespace, o);
            var name := w.templates[k].status.vmStatus[0].name;
            && w'.vms == AfterDestroy(w.vms, name, Some(k), o) && |w'.vms| == |w.vms|
            && k in w'.templates && w'.templates[k].status.currentReplicas == 0
            && w'.templates[k] == w.templates[k].(status := w'.templates[k].status)
  {
    hide Lookup, Removed, SwitchedOff, TaggedFor;
    var vs := w.templates[TemplateKey(a, namespace)].status.vmStatus;
    assert vs[..0] == [];
    assert Unlinked(vs, a.name) == [];
    if o.found.Some? { SwitchedIsSame(w.vms, o.found.value); }
  }
}
