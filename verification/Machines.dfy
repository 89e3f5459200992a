/**
 * Which machine a finalization takes out. The finalizer looks for a VM by the name in the status, and
 * names are used again; so it is the Agent's own machine exactly as long as no entry of the status names
 * a VM with another UUID. When that stays so, over all runs.
 */
module Machines {
  import opened Wrappers
  import opened GoFmt
  import opened Naming
  import opened Tags
  import opened Resources
  import opened Fleet
  import opened VmReconcile
  import opened PassLaws
  import opened Agents
  import opened Lifecycle
  import opened Links
  import opened FleetRuns
  import opened FleetSafety
  import opened Controller
  import opened LinkRuns

  /** Every entry with the VM's name has its UUID. */
  predicate NoClash(vs: seq<VMStatus>, vm: VM) {
    forall i :: 0 <= i < |vs| && vs[i].name == vm.name ==> vs[i].uuid == vm.uuid
  }

  predicate AllUnclashed(vs: seq<VMStatus>, fleet: seq<VM>) {
    forall vm :: vm in fleet ==> NoClash(vs, vm)
  }

  /** No entry of the template's status names a VM of the fleet that has another UUID. */
  predicate UpToDate(w: World, k: Key)
    requires k in w.templates
  {
    AllUnclashed(w.templates[k].status.vmStatus, Owned(w.vms, k, w.templates[k].spec))
  }

  predicate EntriesCurrent(w: World) {
    forall k :: k in w.templates ==> UpToDate(w, k)
  }

  /** The pass gets to store a status that it has rebuilt. */
  predicate StoresRebuilt(w: World, k: Key, o: NormalOracle)
    requires k in w.templates
  {
    var t := w.templates[k];
    && (t.finalizer || o.finalizerOk) && o.course.Proceed? && o.statusOk
    && Rebuilds(w.vms, k, t.spec, StartStatus(t, o.course), o.vm)
  }

  /**
   * The guard of the steps that can leave an entry out of date: a pass that makes VMs under names of old
   * entries stores the rebuilt status, and no VM is renamed to the name of another's entry.
   */
  predicate KeepsUpToDate(w: World, e: Event) {
    match e
    case ReconcileTemplate(k, o) =>
      k in w.templates ==> StoresRebuilt(w, k, o) || AllUnclashed(w.templates[k].status.vmStatus, Makes(w, k, o))
    case VMMoves(i, folder, name) =>
      i < |w.vms| ==>
        var moved := w.vms[i].(folder := folder, name := name);
        forall k :: k in w.templates && OwnedBy(moved, k, w.templates[k].spec) ==>
                      NoClash(w.templates[k].status.vmStatus, moved)
    case _ => true
  }

  /* ---------- statuses ---------- */

  /** The same entries, agent names aside. */
  predicate SameMachines(vs: seq<VMStatus>, ws: seq<VMStatus>) {
    |vs| == |ws| && forall i :: 0 <= i < |vs| ==> ws[i].name == vs[i].name && ws[i].uuid == vs[i].uuid
  }

  lemma SameMachinesClash(vs: seq<VMStatus>, ws: seq<VMStatus>, fleet: seq<VM>)
    requires SameMachines(vs, ws)
    ensures AllUnclashed(vs, fleet) == AllUnclashed(ws, fleet)
  {
    forall vm ensures NoClash(vs, vm) == NoClash(ws, vm) {
      assert forall i :: 0 <= i < |vs| ==> ws[i].name == vs[i].name && ws[i].uuid == vs[i].uuid;
    }
  }

  lemma RelinkedSame(status: Status, links: seq<string>)
    ensures SameMachines(status.vmStatus, Relinked(status, links).vmStatus)
  {
  }

  /** Entries rebuilt from a folder in which no name is there twice are up to date. */
  lemma RebuiltUnclashed(vms: seq<VM>, k: Key, spec: Spec, hidden: set<VM>)
    requires UniqueNames(vms)
    ensures AllUnclashed(Entries(Current(vms, k, spec, hidden)), Owned(vms, k, spec))
  {
    CurrentMembers(vms, k, spec, hidden);
    CurrentMembers(vms, k, spec, {});
    hide Current, TaggedFor, Prefix;
    var listed := Current(vms, k, spec, hidden);
    forall vm, i | vm in Owned(vms, k, spec) && 0 <= i < |listed| && listed[i].name == vm.name
      ensures listed[i].uuid == vm.uuid
    {
      assert listed[i] in listed;
      var p :| 0 <= p < |vms| && vms[p] == vm;
      var q :| 0 <= q < |vms| && vms[q] == listed[i];
    }
  }

  lemma RebuiltStatus(vms: seq<VM>, held: set<SecretRef>, k: Key, spec: Spec, status: Status, o: VmOracle)
    returns (hidden: set<VM>)
    requires Rebuilds(vms, k, spec, status, o)
    ensures var out := VmPass(vms, held, k, spec, status, o);
            out.ok && out.status.vmStatus == Entries(Current(out.vms, k, spec, hidden))
  {
    hide Current, NewVMs, HeldAfter, ReadyCount;
    hidden := if Scaling(status.desiredReplicas, |Current(vms, k, spec, o.hidden)|) then o.rehidden else o.hidden;
  }

  /** A pass over the VMs that does not rebuild the status keeps its entries. */
  lemma UnrebuiltKeepsEntries(vms: seq<VM>, held: set<SecretRef>, k: Key, spec: Spec, status: Status, o: VmOracle)
    requires !Rebuilds(vms, k, spec, status, o)
    ensures VmPass(vms, held, k, spec, status, o).status.vmStatus == status.vmStatus
  {
    hide Current, NewVMs, HeldAfter, Rebuilt;
  }

  /* ---------- one pass ---------- */

  /** The status that a pass leaves: rebuilt from what is there, or with the entries from before. */
  lemma PassStatus(w: World, k: Key, o: NormalOracle)
    requires k in w.templates && UniqueNames(NormalPass(w, k, o).vms)
    ensures k in NormalPass(w, k, o).templates
    ensures var vs, w' := w.templates[k].status.vmStatus, NormalPass(w, k, o);
            var vs' := w'.templates[k].status.vmStatus;
            if StoresRebuilt(w, k, o) then AllUnclashed(vs', Owned(w'.vms, k, w.templates[k].spec))
            else SameMachines(vs, vs')
  {
    var t := w.templates[k];
    if (t.finalizer || o.finalizerOk) && o.course.Proceed? {
      var start := StartStatus(t, o.course);
      var out := VmPass(w.vms, w.held, k, t.spec, start, o.vm);
      RelinkedSame(out.status, o.links);
      if StoresRebuilt(w, k, o) {
        var hidden := RebuiltStatus(w.vms, w.held, k, t.spec, start, o.vm);
        RebuiltUnclashed(out.vms, k, t.spec, hidden);
        SameMachinesClash(out.status.vmStatus, Relinked(out.status, o.links).vmStatus, Owned(out.vms, k, t.spec));
      } else if o.statusOk {
        UnrebuiltKeepsEntries(w.vms, w.held, k, t.spec, start, o.vm);
      }
    }
    hide VmPass, Current, Relinked, UniqueNames, AllUnclashed, Rebuilds, Entries;
  }

  /** More VMs of the fleet clash with old entries exactly if one of them does. */
  lemma MadeUnclashed(vs: seq<VMStatus>, vms: seq<VM>, made: seq<VM>, k: Key, spec: Spec)
    requires AllUnclashed(vs, Owned(vms, k, spec)) && forall vm :: vm in made ==> OwnedBy(vm, k, spec)
    ensures AllUnclashed(vs, Owned(vms + made, k, spec)) <==> AllUnclashed(vs, made)
  {
    CurrentConcat(vms, made, k, spec, {});
    OwnedAll(made, k, spec);
    hide Current, OwnedBy, NoClash;
    var fleet := Owned(vms, k, spec);
    assert forall vm :: vm in fleet + made <==> vm in fleet || vm in made;
  }

  /** The template's own pass. */
  lemma OwnPassIff(w: World, k: Key, o: NormalOracle)
    requires Enabled(w, ReconcileTemplate(k, o)) && UpToDate(w, k) && UniqueNames(NormalPass(w, k, o).vms)
    ensures k in NormalPass(w, k, o).templates
    ensures UpToDate(NormalPass(w, k, o), k) <==> KeepsUpToDate(w, ReconcileTemplate(k, o))
  {
    hide NormalPass, Current, OwnedBy, UniqueNames, AllUnclashed, StoresRebuilt, Makes, SameMachines;
    var t, w', made := w.templates[k], NormalPass(w, k, o), Makes(w, k, o);
    NormalStep(w, k, o);
    NormalVMs(w, k, o);
    PassStatus(w, k, o);
    forall vm | vm in made ensures OwnedBy(vm, k, t.spec) {
      MadeAreOwned(w, k, o, vm);
    }
    var vs, vs' := t.status.vmStatus, w'.templates[k].status.vmStatus;
    if !StoresRebuilt(w, k, o) {
      SameMachinesClash(vs, vs', Owned(w'.vms, k, t.spec));
      MadeUnclashed(vs, w.vms, made, k, t.spec);
    }
  }

  /** What a step does to the fleet and the entries of a template, if it is neither its own pass nor a move. */
  lemma UnclashedWithin(vs: seq<VMStatus>, fleet: seq<VM>, ws: seq<VMStatus>, other: seq<VM>)
    requires AllUnclashed(ws, other)
    requires forall v :: v in vs ==> exists u :: u in ws && u.name == v.name && u.uuid == v.uuid
    requires forall vm :: vm in fleet ==> exists u :: u in other && u.name == vm.name && u.uuid == vm.uuid
    ensures AllUnclashed(vs, fleet)
  {
    forall vm, i | vm in fleet && 0 <= i < |vs| && vs[i].name == vm.name ensures vs[i].uuid == vm.uuid {
      assert vs[i] in vs;
      var u :| u in ws && u.name == vs[i].name && u.uuid == vs[i].uuid;
      var x :| x in other && x.name == vm.name && x.uuid == vm.uuid;
      assert NoClash(ws, x);
    }
  }

  /** Fewer VMs, or the same in another power state, clash no more. */
  lemma KeptUnclashed(vs: seq<VMStatus>, vms: seq<VM>, vms': seq<VM>, k: Key, spec: Spec)
    requires AllUnclashed(vs, Owned(vms, k, spec))
    requires forall vm :: vm in vms' && OwnedBy(vm, k, spec) ==> Kept(vm, vms)
    ensures AllUnclashed(vs, Owned(vms', k, spec))
  {
    CurrentMembers(vms, k, spec, {});
    CurrentMembers(vms', k, spec, {});
    hide Current, OwnedBy, NoClash;
    forall vm | vm in Owned(vms', k, spec)
      ensures exists u :: u in Owned(vms, k, spec) && u.name == vm.name && u.uuid == vm.uuid
    {
      var on :| vm.(poweredOn := on) in vms;
      OwnershipIgnoresPower(vm, on, k, spec);
      assert vm.(poweredOn := on) in Owned(vms, k, spec);
    }
    UnclashedWithin(vs, Owned(vms', k, spec), vs, Owned(vms, k, spec));
  }

  /* ---------- the other steps ---------- */

  lemma DeletedUpToDate(w: World, j: Key, o: DeleteOracle, k: Key)
    requires Enabled(w, Event.DeleteTemplate(j, o)) && UniqueNames(w.vms) && k in w.templates && UpToDate(w, k)
    ensures UpToDate(Apply(w, Event.DeleteTemplate(j, o)), k)
  {
    var t, w' := w.templates[k], Apply(w, Event.DeleteTemplate(j, o));
    DeleteStep(w.vms, w.held, j, w.templates[j], o);
    if j == k {
      DeletedEntries(w.vms, w.held, k, t, o);
      RebuiltUnclashed(w.vms, k, t.spec, o.vm.hidden);
    }
    hide DeletePass, Current, AllUnclashed, UniqueNames, Entries, Drops, Releases;
  }

  lemma DeletedEntries(vms: seq<VM>, held: set<SecretRef>, k: Key, t: Template, o: DeleteOracle)
    requires |vms| <= MAX_INT32
    ensures DeletePass(vms, held, k, t, o).stored.status.vmStatus in
              {t.status.vmStatus, Entries(Current(vms, k, t.spec, o.vm.hidden))}
  {
    DeletingStatusEntries(vms, held, k, t.spec, t.status.(desiredReplicas := 0), o.vm);
    hide VmPass, Current, SecretOf;
  }

  lemma DeletingStatusEntries(vms: seq<VM>, held: set<SecretRef>, k: Key, spec: Spec, status: Status, o: VmOracle)
    requires |vms| <= MAX_INT32 && status.desiredReplicas == 0
    ensures VmPass(vms, held, k, spec, status, o).status.vmStatus ==
            if o.listed then Entries(Current(vms, k, spec, o.hidden)) else status.vmStatus
  {
    hide Current, ReadyCount;
    assert !Scaling(0, |Current(vms, k, spec, o.hidden)|);
  }

  lemma ReleasedUpToDate(w: World, a: Agent, namespace: string, o: FinalizerOracle, k: Key)
    requires k in w.templates && UpToDate(w, k)
    ensures k in Release(w, a, namespace, o).templates && UpToDate(Release(w, a, namespace, o), k)
  {
    var t, w' := w.templates[k], Release(w, a, namespace, o);
    ReleaseStep(w, a, namespace, o);
    KeptUnclashed(t.status.vmStatus, w.vms, w'.vms, k, t.spec);
    ReleasedEntries(w, a, namespace, o, k);
    UnlinkedKeepsOthers(t.status.vmStatus, a.name);
    hide Release, Current, Unlinked, NoClash, Kept;
    var fleet := Owned(w'.vms, k, t.spec);
    UnclashedWithin(w'.templates[k].status.vmStatus, fleet, t.status.vmStatus, fleet);
  }

  lemma ReleasedEntries(w: World, a: Agent, namespace: string, o: FinalizerOracle, k: Key)
    requires k in w.templates && k in Release(w, a, namespace, o).templates
    ensures Release(w, a, namespace, o).templates[k].status.vmStatus in
              {w.templates[k].status.vmStatus, Unlinked(w.templates[k].status.vmStatus, a.name)}
  {
    hide LinkedVM, Unlinked, AfterDestroy, Lookup;
  }

  lemma EditedUpToDate(w: World, j: Key, spec: Spec, k: Key)
    requires NoOrphans(w) && j in w.templates && k in w.templates && UpToDate(w, k)
    ensures UpToDate(Apply(w, EditTemplate(j, spec)), k)
  {
    hide OwnedBy, TaggedFor, ValidKey, Current, NoClash;
    if j == k {
      CurrentMembers(w.vms, k, spec, {});
      CurrentMembers(w.vms, k, w.templates[k].spec, {});
      forall vm | vm in Owned(w.vms, k, spec) ensures vm in Owned(w.vms, k, w.templates[k].spec) {
        OwnedIsTagged(vm, k, spec);
        assert Anchored(vm, k, w);
      }
    }
  }

  lemma EnvironmentUpToDate(w: World, e: Event, k: Key)
    requires NoOrphans(w) && EntriesCurrent(w) && Environment(e) && Enabled(w, e) && k in Apply(w, e).templates
    ensures UpToDate(Apply(w, e), k)
  {
    var w' := Apply(w, e);
    if e.CreateTemplate? && e.k == k {
      assert w'.templates[k].status.vmStatus == [];
    } else {
      assert k in w.templates && w'.templates[k].spec == w.templates[k].spec
             && w'.templates[k].status == w.templates[k].status;
      assert UpToDate(w, k);
      EnvironmentStep(w, e);
      forall vm | vm in w'.vms && OwnedBy(vm, k, w.templates[k].spec) ensures Kept(vm, w.vms) {
        OwnedIsTagged(vm, k, w.templates[k].spec);
        KeptItself(vm, w.vms);
      }
      KeptUnclashed(w.templates[k].status.vmStatus, w.vms, w'.vms, k, w.templates[k].spec);
    }
    hide Apply, Enabled, Current, OwnedBy, TaggedFor, Kept, NoClash;
  }

  lemma MovedUpToDateIff(w: World, i: nat, folder: string, name: string)
    requires EntriesCurrent(w) && i < |w.vms|
    ensures EntriesCurrent(Apply(w, VMMoves(i, folder, name))) <==> KeepsUpToDate(w, VMMoves(i, folder, name))
  {
    hide OwnedBy, Current, NoClash;
    var w', moved := Apply(w, VMMoves(i, folder, name)), w.vms[i].(folder := folder, name := name);
    assert w'.vms[i] == moved;
    forall k | k in w.templates
      ensures UpToDate(w', k) <==>
              (OwnedBy(moved, k, w.templates[k].spec) ==> NoClash(w.templates[k].status.vmStatus, moved))
    {
      var spec := w.templates[k].spec;
      CurrentMembers(w.vms, k, spec, {});
      CurrentMembers(w'.vms, k, spec, {});
      assert UpToDate(w, k);
      assert forall vm :: vm in w'.vms ==> vm == moved || vm in w.vms;
      if OwnedBy(moved, k, spec) {
        assert moved in Owned(w'.vms, k, spec);
      }
    }
  }

  /** A pass of one template leaves the others' entries as they are. */
  lemma OthersUpToDate(w: World, j: Key, o: NormalOracle, k: Key)
    requires NoOrphans(w) && Enabled(w, ReconcileTemplate(j, o)) && k in w.templates && j != k
    ensures k in NormalPass(w, j, o).templates && UpToDate(NormalPass(w, j, o), k) == UpToDate(w, k)
  {
    NormalStep(w, j, o);
    PassesLeaveOtherFleets(w, j, o, DeleteOracle(false, o.vm, false, false, false), k, w.templates[k].spec);
    hide NormalPass, Current, ValidKey, TaggedFor;
  }

  lemma ReconcileUpToDateIff(w: World, j: Key, o: NormalOracle)
    requires NoOrphans(w) && EntriesCurrent(w) && Enabled(w, ReconcileTemplate(j, o))
    requires UniqueNames(NormalPass(w, j, o).vms)
    ensures EntriesCurrent(NormalPass(w, j, o)) <==> KeepsUpToDate(w, ReconcileTemplate(j, o))
  {
    assert UpToDate(w, j);
    OwnPassIff(w, j, o);
    NormalStep(w, j, o);
    hide NormalPass, UpToDate, NoOrphans, KeepsUpToDate, UniqueNames, Enabled;
    forall k | k in w.templates && k != j ensures UpToDate(NormalPass(w, j, o), k) {
      assert UpToDate(w, k);
      OthersUpToDate(w, j, o, k);
    }
  }

  /** A step keeps every entry up to date exactly under its guard. */
  lemma UpToDateStepIff(w: World, e: Event)
    requires NoOrphans(w) && EntriesCurrent(w) && Enabled(w, e) && UniqueNames(Apply(w, e).vms)
    ensures EntriesCurrent(Apply(w, e)) <==> KeepsUpToDate(w, e)
  {
    match e {
      case ReconcileTemplate(k, o) => ReconcileIsNormal(w, k, o); ReconcileUpToDateIff(w, k, o);
      case VMMoves(i, folder, name) => MovedUpToDateIff(w, i, folder, name);
      case _ =>
        forall k | k in Apply(w, e).templates ensures UpToDate(Apply(w, e), k) {
          UpToDateAfter(w, e, k);
        }
    }
    hide Apply, UpToDate, NoOrphans, KeepsUpToDate, UniqueNames, Enabled, NormalPass;
  }

  lemma UpToDateAfter(w: World, e: Event, k: Key)
    requires NoOrphans(w) && EntriesCurrent(w) && Enabled(w, e) && UniqueNames(Apply(w, e).vms)
    requires !e.ReconcileTemplate? && !e.VMMoves? && k in Apply(w, e).templates
    ensures UpToDate(Apply(w, e), k)
  {
    match e {
      case DeleteTemplate(j, o) =>
        DeleteStep(w.vms, w.held, j, w.templates[j], o);
        assert UpToDate(w, k);
        DeletedUpToDate(w, j, o, k);
      case ReleaseAgent(a, namespace, o) =>
        ReleaseStep(w, a, namespace, o);
        ReleaseIs(w, a, namespace, o);
        assert UpToDate(w, k);
        ReleasedUpToDate(w, a, namespace, o, k);
      case EditTemplate(j, spec) =>
        assert UpToDate(w, k);
        EditedUpToDate(w, j, spec, k);
      case _ => EnvironmentUpToDate(w, e, k);
    }
    hide UpToDate, NoOrphans, DeletePass, Release, UniqueNames, ValidPlan, Foreign, Drops, Releases;
  }

  /* ---------- all runs ---------- */

  /** vSphere never holds a name twice in a folder. */
  ghost predicate NamesStayUnique(ws: seq<World>) {
    forall i :: 0 <= i < |ws| ==> UniqueNames(ws[i].vms)
  }

  lemma {:induction false} EntriesCurrentInAnyRun(ws: seq<World>, es: seq<Event>, n: nat)
    requires IsRun(ws, es) && NamesStayUnique(ws) && NoOrphans(ws[0]) && EntriesCurrent(ws[0]) && n <= |es|
    requires forall i :: 0 <= i < n ==> Sound(ws[i], es[i]) && KeepsUpToDate(ws[i], es[i])
    ensures EntriesCurrent(ws[n])
  {
    hide *;
    if n > 0 {
      EntriesCurrentInAnyRun(ws, es, n - 1);
      NoOrphansInAnyRun(ws, es, n - 1);
      RunStep(ws, es, n);
      UniqueAt(ws, n);
      UpToDateStepIff(ws[n - 1], es[n - 1]);
    }
  }

  lemma UniqueAt(ws: seq<World>, n: nat)
    requires NamesStayUnique(ws) && n < |ws|
    ensures UniqueNames(ws[n].vms)
  {
    hide UniqueNames;
  }

  /** The runs that keep every entry up to date are exactly those of such steps. */
  lemma EntriesCurrentIff(ws: seq<World>, es: seq<Event>)
    requires IsRun(ws, es) && NamesStayUnique(ws) && NoOrphans(ws[0]) && EntriesCurrent(ws[0])
    requires forall i :: 0 <= i < |es| ==> Sound(ws[i], es[i])
    ensures (forall n :: 0 <= n < |ws| ==> EntriesCurrent(ws[n])) <==>
            (forall i :: 0 <= i < |es| ==> KeepsUpToDate(ws[i], es[i]))
  {
    hide Apply, Enabled, Sound, NoOrphans, EntriesCurrent, KeepsUpToDate, UniqueNames;
    if forall i :: 0 <= i < |es| ==> KeepsUpToDate(ws[i], es[i]) {
      forall n | 0 <= n < |ws| ensures EntriesCurrent(ws[n]) {
        EntriesCurrentInAnyRun(ws, es, n);
      }
    }
    if forall n :: 0 <= n < |ws| ==> EntriesCurrent(ws[n]) {
      forall i | 0 <= i < |es| ensures KeepsUpToDate(ws[i], es[i]) {
        assert ws[i + 1] == Apply(ws[i], es[i]) && EntriesCurrent(ws[i + 1]);
        NoOrphansInAnyRun(ws, es, i);
        UpToDateStepIff(ws[i], es[i]);
      }
    }
  }

  /**
   * In such a run, of passes that record their own links, a finalization that finds the template destroys
   * the Agent's own machine: a VM of the template whose UUID is that of an entry linked to the Agent, and
   * that an Agent of this name was listed with, by UUID or serial.
   */
  lemma FinalizeHitsOwnMachine(
    ws: seq<World>, es: seq<Event>, ins: seq<Input>, n: nat, a: Agent, namespace: string, o: FinalizerOracle)
    requires IsRun(ws, es) && PassesAreReal(ws, es, ins) && n <= |es| && AllRight(ws[0], {})
    requires NamesStayUnique(ws) && NoOrphans(ws[0]) && EntriesCurrent(ws[0])
    requires forall i :: 0 <= i < n ==> Sound(ws[i], es[i]) && KeepsUpToDate(ws[i], es[i])
    requires var k := TemplateKey(a, namespace); k in ws[n].templates && a.name != ""
    requires Enabled(ws[n], ReleaseAgent(a, namespace, o))
    ensures var k := TemplateKey(a, namespace);
            |Release(ws[n], a, namespace, o).vms| < |ws[n].vms| ==>
              && o.found.Some? && OwnedBy(o.found.value, k, ws[n].templates[k].spec)
              && exists v :: v in ws[n].templates[k].status.vmStatus && v.uuid == o.found.value.uuid
                             && v.agentName == a.name && Warrants(ListedBy(ins[..n]), v)
  {
    var k := TemplateKey(a, namespace);
    FinalizeHitsSeenMachine(ws, es, ins, n, a, namespace, o);
    NoOrphansInAnyRun(ws, es, n);
    EntriesCurrentInAnyRun(ws, es, n);
    hide IsRun, PassesAreReal, Release, Warrants, Current, TaggedFor, OwnedBy, Apply, ListedBy, KeepsUpToDate, Sound;
    if |Release(ws[n], a, namespace, o).vms| < |ws[n].vms| {
      var vm, spec, vs := o.found.value, ws[n].templates[k].spec, ws[n].templates[k].status.vmStatus;
      assert Anchored(vm, k, ws[n]);
      CurrentMembers(ws[n].vms, k, spec, {});
      assert vm in Owned(ws[n].vms, k, spec);
      assert UpToDate(ws[n], k);
      assert NoClash(vs, vm);
      var v :| v in vs && v.name == vm.name && v.agentName == a.name && Warrants(ListedBy(ins[..n]), v);
    }
  }
}
