/** How many VMs a template can have over all runs, and what its neighbours and its deletion do to them. */
module FleetSafety {
  import opened Wrappers
  import opened GoFmt
  import opened Naming
  import opened Tags
  import opened Resources
  import opened Fleet
  import opened VmReconcile
  import opened PassLaws
  import opened Agents
  import opened Lifecycle
  import opened FleetRuns

  function FleetSize(w: World, k: Key): nat
    requires k in w.templates
  {
    |Owned(w.vms, k, w.templates[k].spec)|
  }

  lemma CountSplit(a: seq<VM>, vm: VM, b: seq<VM>, k: Key, spec: Spec)
    ensures |Owned(a + [vm] + b, k, spec)| ==
            |Owned(a, k, spec)| + |Owned(b, k, spec)| + if OwnedBy(vm, k, spec) then 1 else 0
    ensures |Owned(a + b, k, spec)| == |Owned(a, k, spec)| + |Owned(b, k, spec)|
    ensures |Owned(a + b + [vm], k, spec)| == |Owned(a + [vm] + b, k, spec)|
  {
    CurrentConcat(a + [vm], b, k, spec, {});
    CurrentConcat(a, [vm], k, spec, {});
    CurrentConcat(a, b, k, spec, {});
    CurrentConcat(a + b, [vm], k, spec, {});
    hide OwnedBy;
    assert [vm][..0] == [];
  }

  lemma ForeignCount(vms: seq<VM>, vm: VM, k: Key, spec: Spec)
    requires !OwnedBy(vm, k, spec)
    ensures |Owned(vms + [vm], k, spec)| == |Owned(vms, k, spec)|
  {
    CountSplit(vms, vm, [], k, spec);
    hide Owned, OwnedBy;
    assert vms + [vm] + [] == vms + [vm];
    assert vms + [] == vms;
  }

  /** Taking a VM out, putting it last, or switching it on or off. */
  lemma OneVMCount(vms: seq<VM>, i: nat, on: bool, k: Key, spec: Spec)
    requires i < |vms|
    ensures |Owned(vms[..i] + vms[i + 1..], k, spec)| <= |Owned(vms, k, spec)|
    ensures |Owned(vms[..i] + vms[i + 1..] + [vms[i]], k, spec)| == |Owned(vms, k, spec)|
    ensures |Owned(vms[i := vms[i].(poweredOn := on)], k, spec)| == |Owned(vms, k, spec)|
  {
    var a, vm, b := vms[..i], vms[i], vms[i + 1..];
    var switched := vm.(poweredOn := on);
    CountSplit(a, vm, b, k, spec);
    CountSplit(a, switched, b, k, spec);
    OwnershipIgnoresPower(vm, on, k, spec);
    Reassembled(vms, i, switched);
    hide Owned, OwnedBy;
  }

  lemma Reassembled(vms: seq<VM>, i: nat, vm: VM)
    requires i < |vms|
    ensures vms == vms[..i] + [vms[i]] + vms[i + 1..]
    ensures vms[i := vm] == vms[..i] + [vm] + vms[i + 1..]
  {
  }

  /** Replacing a VM by one that is not owned unless it was. */
  lemma ReplacedCount(vms: seq<VM>, i: nat, vm: VM, k: Key, spec: Spec)
    requires i < |vms| && (OwnedBy(vm, k, spec) ==> OwnedBy(vms[i], k, spec))
    ensures |Owned(vms[i := vm], k, spec)| <= |Owned(vms, k, spec)|
  {
    CountSplit(vms[..i], vms[i], vms[i + 1..], k, spec);
    CountSplit(vms[..i], vm, vms[i + 1..], k, spec);
    Reassembled(vms, i, vm);
    hide Owned, OwnedBy;
  }

  /** A VM is moved or renamed into the view of the template that it is tagged with. */
  predicate MovesIn(w: World, e: Event, k: Key, spec: Spec) {
    e.VMMoves? && e.i < |w.vms| && !OwnedBy(w.vms[e.i], k, spec)
    && OwnedBy(w.vms[e.i].(folder := e.folder, name := e.name), k, spec)
  }

  /** Whatever users and vSphere do, no fleet grows. */
  lemma EnvironmentCount(w: World, e: Event, k: Key, spec: Spec)
    requires ValidKey(k) && Environment(e) && Enabled(w, e)
    ensures |Owned(Apply(w, e).vms, k, spec)| <= |Owned(w.vms, k, spec)|
  {
    hide Owned, OwnedBy, TaggedFor, ValidKey, Prefix;
    match e {
      case VMAppears(vm) =>
        NotTaggedNotOwned(vm, k, spec);
        ForeignCount(w.vms, vm, k, spec);
      case VMDisappears(i) => OneVMCount(w.vms, i, false, k, spec);
      case VMPower(i, on) => OneVMCount(w.vms, i, on, k, spec);
      case VMListedLast(i) => OneVMCount(w.vms, i, false, k, spec);
      case _ =>
    }
  }

  lemma NotTaggedNotOwned(vm: VM, k: Key, spec: Spec)
    requires !TaggedFor(vm, k)
    ensures !OwnedBy(vm, k, spec)
  {
  }

  lemma ReleaseCount(w: World, a: Agent, namespace: string, o: FinalizerOracle, k: Key, spec: Spec)
    ensures |Owned(Release(w, a, namespace, o).vms, k, spec)| <= |Owned(w.vms, k, spec)|
  {
    hide Release, Current;
    ReleaseStep(w, a, namespace, o);
    if o.found.Some? {
      CurrentRemoved(w.vms, o.found.value, k, spec, {});
      CurrentSwitched(w.vms, o.found.value, k, spec);
    }
  }

  /** Cross-template non-interference: a pass for one template leaves every other fleet unchanged. */
  lemma PassesLeaveOtherFleets(w: World, j: Key, o: NormalOracle, d: DeleteOracle, k: Key, spec: Spec)
    requires ValidKey(j) && ValidKey(k) && j != k && j in w.templates
    requires ValidPlan(o.vm.plan, j, w.templates[j].spec) && |w.vms| <= MAX_INT32
    ensures Owned(NormalPass(w, j, o).vms, k, spec) == Owned(w.vms, k, spec)
    ensures DeletePass(w.vms, w.held, j, w.templates[j], d).vms == w.vms
  {
    hide Current, DeletePass, NormalPass, NewVMs, ValidKey, Drops, Releases;
    var t := w.templates[j];
    DeleteStep(w.vms, w.held, j, t, d);
    NormalVMs(w, j, o);
    assert w.vms + [] == w.vms;
    if Makes(w, j, o) != [] {
      PassLeavesOthers(w.vms, w.held, j, t.spec, StartStatus(t, o.course), o.vm, k, spec, {});
      PassAppends(w.vms, w.held, j, t.spec, StartStatus(t, o.course), o.vm);
    }
  }

  /** Only its own scaling pass can make a fleet grow. */
  lemma CountStep(w: World, e: Event, k: Key, spec: Spec)
    requires Enabled(w, e) && ValidKey(k) && (forall j :: j in w.templates ==> ValidKey(j))
    requires (e.ReconcileTemplate? ==> e.k != k) && !MovesIn(w, e, k, spec)
    ensures |Owned(Apply(w, e).vms, k, spec)| <= |Owned(w.vms, k, spec)|
  {
    hide Current, NormalPass, DeletePass, ValidKey, OwnedBy;
    match e {
      case ReconcileTemplate(j, o) =>
        PassesLeaveOtherFleets(w, j, o, DeleteOracle(false, o.vm, false, false, false), k, spec);
      case DeleteTemplate(j, o) => DeleteStep(w.vms, w.held, j, w.templates[j], o);
      case ReleaseAgent(a, namespace, o) => ReleaseCount(w, a, namespace, o, k, spec);
      case EditTemplate(_, _) =>
      case VMMoves(i, folder, name) =>
        ReplacedCount(w.vms, i, w.vms[i].(folder := folder, name := name), k, spec);
      case _ => EnvironmentCount(w, e, k, spec);
    }
  }

  /* ---------- quota ---------- */

  /** How many VMs of the fleet a scaling pass of k fails to list. */
  function Missed(w: World, k: Key, o: VmOracle): int
    requires k in w.templates
  {
    FleetSize(w, k) - |Current(w.vms, k, w.templates[k].spec, o.hidden)|
  }

  predicate Scales(w: World, e: Event, k: Key) {
    e.ReconcileTemplate? && e.k == k && k in w.templates && e.normal.course.Proceed?
  }

  /** The request, as an int32 difference from the listed fleet, does not wrap. */
  predicate NoWrap(w: World, k: Key, o: NormalOracle)
    requires k in w.templates && o.course.Proceed?
  {
    var t := w.templates[k];
    MIN_INT32 <= StartStatus(t, o.course).desiredReplicas - |Current(w.vms, k, t.spec, o.vm.hidden)|
  }

  /** A scaling pass of k asks for no more than `bound`, quota applied and VMs missed on top. */
  predicate AsksAtMost(w: World, e: Event, k: Key, bound: int) {
    Scales(w, e, k) ==>
      var t := w.templates[k];
      && NoWrap(w, k, e.normal)
      && Target(StartStatus(t, e.normal.course).desiredReplicas, t.spec.maxVms) + Missed(w, k, e.normal.vm) <= bound
  }

  lemma ScalingStep(w: World, k: Key, o: NormalOracle, bound: int)
    requires Enabled(w, ReconcileTemplate(k, o)) && AsksAtMost(w, ReconcileTemplate(k, o), k, bound)
    ensures |Owned(NormalPass(w, k, o).vms, k, w.templates[k].spec)| <= Max(FleetSize(w, k), bound)
  {
    hide NormalPass, VmPass, Current, NewVMs, ValidPlan;
    var t := w.templates[k];
    NormalVMs(w, k, o);
    assert w.vms + [] == w.vms;
    if Makes(w, k, o) != [] {
      var status := StartStatus(t, o.course);
      ListingNoLonger(w.vms, k, t.spec, o.vm.hidden);
      PassWithinQuota(w.vms, w.held, k, t.spec, status, o.vm);
      PassAppends(w.vms, w.held, k, t.spec, status, o.vm);
    }
  }

  lemma ListingNoLonger(vms: seq<VM>, k: Key, spec: Spec, hidden: set<VM>)
    ensures |Current(vms, k, spec, hidden)| <= |vms|
  {
  }

  /** No edit of the spec and no move of a VM brings one into view that the template did not see before. */
  predicate BringsNone(w: World, e: Event, k: Key) {
    k in w.templates ==>
      && (e.EditTemplate? && e.k == k ==> |Owned(w.vms, k, e.spec)| <= FleetSize(w, k))
      && !MovesIn(w, e, k, w.templates[k].spec)
  }

  /** The template is there throughout. */
  ghost predicate Stays(ws: seq<World>, es: seq<Event>, k: Key) {
    && |ws| == |es| + 1
    && (forall i :: 0 <= i < |ws| ==> k in ws[i].templates && forall j :: j in ws[i].templates ==> ValidKey(j))
    && (forall i :: 0 <= i < |es| ==> BringsNone(ws[i], es[i], k))
  }

  /** An edit that keeps sight of the fleet is one of those. */
  lemma SightBringsNone(w: World, k: Key, spec: Spec)
    requires NoOrphans(w) && k in w.templates && KeepsSight(w, k, spec)
    ensures Owned(w.vms, k, spec) == Owned(w.vms, k, w.templates[k].spec)
    ensures BringsNone(w, EditTemplate(k, spec), k)
  {
    hide TaggedFor, ValidKey, Current, Prefix;
    var t := w.templates[k];
    CurrentMembers(w.vms, k, t.spec, {});
    forall vm | vm in w.vms ensures OwnedBy(vm, k, spec) == OwnedBy(vm, k, t.spec) {
      if TaggedFor(vm, k) {
        assert Anchored(vm, k, w);
        assert vm in Owned(w.vms, k, t.spec);
      }
    }
    SameFleet(w.vms, k, spec, t.spec);
  }

  /** Where no VM is orphaned, no move brings one into view. */
  lemma MoveBringsNone(w: World, i: nat, folder: string, name: string, k: Key)
    requires NoOrphans(w) && i < |w.vms|
    ensures BringsNone(w, VMMoves(i, folder, name), k)
  {
    hide Prefix, Current, ValidKey, TaggedFor;
    var moved := w.vms[i].(folder := folder, name := name);
    if k in w.templates && OwnedBy(moved, k, w.templates[k].spec) {
      MovedTag(w.vms[i], folder, name, k);
      assert Anchored(w.vms[i], k, w);
    }
  }

  lemma {:induction false} SameFleet(vms: seq<VM>, k: Key, s: Spec, t: Spec)
    requires forall vm :: vm in vms ==> OwnedBy(vm, k, s) == OwnedBy(vm, k, t)
    ensures Owned(vms, k, s) == Owned(vms, k, t)
  {
    hide OwnedBy;
    if vms != [] {
      SameFleet(vms[..|vms| - 1], k, s, t);
    }
  }

  /**
   * Quota and replica safety over all runs: under every pattern of failures, and whatever other
   * templates, users and vSphere do in between, a fleet never exceeds what it had at first or the
   * most that was ever asked for within the quota.
   */
  lemma {:induction false} FleetBoundedInAnyRun(ws: seq<World>, es: seq<Event>, k: Key, bound: int, n: nat)
    requires IsRun(ws, es) && Stays(ws, es, k) && n <= |es|
    requires forall i :: 0 <= i < |es| ==> AsksAtMost(ws[i], es[i], k, bound)
    ensures FleetSize(ws[n], k) <= Max(FleetSize(ws[0], k), bound)
  {
    hide *;
    RunShape(ws, es, k);
    if n > 0 {
      FleetBoundedInAnyRun(ws, es, k, bound, n - 1);
      StepOfRun(ws, es, k, n);
      BoundedStep(ws[n - 1], es[n - 1], k, bound);
      MaxWithin(FleetSize(ws[n], k), FleetSize(ws[n - 1], k), FleetSize(ws[0], k), bound);
    } else {
      AtMostMax(FleetSize(ws[n], k), bound);
    }
  }

  lemma AtMostMax(a: int, b: int)
    ensures a <= Max(a, b)
  {
  }

  lemma MaxWithin(c: int, b: int, a: int, bound: int)
    requires c <= Max(b, bound)
    requires b <= Max(a, bound)
    ensures c <= Max(a, bound)
  {
  }

  /** Only an edit changes a template's spec. */
  lemma SpecStays(w: World, e: Event, k: Key)
    requires Enabled(w, e) && k in w.templates && k in Apply(w, e).templates
    requires !(e.EditTemplate? && e.k == k)
    ensures Apply(w, e).templates[k].spec == w.templates[k].spec
  {
    hide NormalPass, DeletePass, Release, ValidPlan, Foreign;
    match e {
      case ReconcileTemplate(j, o) => NormalStep(w, j, o);
      case DeleteTemplate(j, o) => DeleteStep(w.vms, w.held, j, w.templates[j], o);
      case ReleaseAgent(a, namespace, o) => ReleaseStep(w, a, namespace, o);
      case _ =>
    }
  }

  /** A fleet grows in no step but its own template's scaling pass. */
  lemma SizeStep(w: World, e: Event, k: Key)
    requires Enabled(w, e) && BringsNone(w, e, k) && (forall j :: j in w.templates ==> ValidKey(j))
    requires k in w.templates && k in Apply(w, e).templates
    requires e.ReconcileTemplate? ==> e.k != k
    ensures FleetSize(Apply(w, e), k) <= FleetSize(w, k)
  {
    if e.EditTemplate? && e.k == k {
      assert Apply(w, e).vms == w.vms;
    } else {
      SpecStays(w, e, k);
      CountStep(w, e, k, w.templates[k].spec);
    }
    hide NormalPass, Current, DeletePass, Release, ValidPlan, ValidKey;
  }

  lemma BoundedStep(w: World, e: Event, k: Key, bound: int)
    requires Enabled(w, e) && AsksAtMost(w, e, k, bound) && BringsNone(w, e, k)
    requires k in w.templates && k in Apply(w, e).templates && (forall j :: j in w.templates ==> ValidKey(j))
    ensures FleetSize(Apply(w, e), k) <= Max(FleetSize(w, k), bound)
  {
    if e.ReconcileTemplate? && e.k == k {
      SpecStays(w, e, k);
      ScalingStep(w, k, e.normal, bound);
      ReconcileIsNormal(w, k, e.normal);
    } else {
      SizeStep(w, e, k);
    }
    hide AsksAtMost, NormalPass, Current, DeletePass, Release, ValidPlan, ValidKey, Apply;
  }

  lemma RunShape(ws: seq<World>, es: seq<Event>, k: Key)
    requires Stays(ws, es, k)
    ensures |ws| == |es| + 1 && forall i :: 0 <= i < |ws| ==> k in ws[i].templates
  {
    hide BringsNone, ValidKey;
  }

  lemma StepOfRun(ws: seq<World>, es: seq<Event>, k: Key, n: nat)
    requires IsRun(ws, es) && Stays(ws, es, k) && 0 < n <= |es|
    ensures |ws| == |es| + 1
    ensures Enabled(ws[n - 1], es[n - 1]) && ws[n] == Apply(ws[n - 1], es[n - 1])
    ensures k in ws[n - 1].templates && k in ws[n].templates && BringsNone(ws[n - 1], es[n - 1], k)
    ensures forall j :: j in ws[n - 1].templates ==> ValidKey(j)
  {
    RunStep(ws, es, n);
    hide IsRun, BringsNone, ValidKey;
  }

  /** A scaling pass of k does not wrap and misses no more than so many VMs. */
  predicate MissesAtMost(w: World, e: Event, k: Key, missed: nat) {
    Scales(w, e, k) ==> NoWrap(w, k, e.normal) && Missed(w, k, e.normal.vm) <= missed
  }

  /**
   * In particular a fixed quota bounds the fleet for good, whatever the NodePool asks for: exactly, if
   * all listings are complete, and up to the VMs that the worst listing missed otherwise.
   */
  lemma QuotaInAnyRun(ws: seq<World>, es: seq<Event>, k: Key, maxVms: Int32, missed: nat, n: nat)
    requires IsRun(ws, es) && Stays(ws, es, k) && n <= |es|
    requires forall i :: 0 <= i < |ws| ==> ws[i].templates[k].spec.maxVms == Some(maxVms)
    requires forall i :: 0 <= i < |es| ==> MissesAtMost(ws[i], es[i], k, missed)
    ensures FleetSize(ws[n], k) <= Max(FleetSize(ws[0], k), maxVms + missed)
  {
    hide IsRun, Stays, Missed, NoWrap;
    RunShape(ws, es, k);
    forall i | 0 <= i < |es| ensures AsksAtMost(ws[i], es[i], k, maxVms + missed) {
      assert MissesAtMost(ws[i], es[i], k, missed);
      assert ws[i].templates[k].spec.maxVms == Some(maxVms);
    }
    FleetBoundedInAnyRun(ws, es, k, maxVms + missed, n);
  }

  /* ---------- deletion ---------- */

  lemma DeletingStays(w: World, e: Event, k: Key)
    requires Enabled(w, e) && k in w.templates && w.templates[k].deleting && k in Apply(w, e).templates
    ensures Apply(w, e).templates[k].deleting
  {
    hide VmPass, ValidPlan, ValidKey, Foreign, Finalize, Prefix;
    match e {
      case DeleteTemplate(j, o) =>
      case ReleaseAgent(a, namespace, o) => ReleaseStep(w, a, namespace, o);
      case _ =>
    }
  }

  lemma DeletingStep(w: World, e: Event, k: Key)
    requires Enabled(w, e) && BringsNone(w, e, k) && (forall j :: j in w.templates ==> ValidKey(j))
    requires k in w.templates && w.templates[k].deleting && k in Apply(w, e).templates
    ensures Apply(w, e).templates[k].deleting && FleetSize(Apply(w, e), k) <= FleetSize(w, k)
  {
    DeletingStays(w, e, k);
    SizeStep(w, e, k);
    hide Apply, Current;
  }

  /**
   * Once a template is marked deleted, no step of any kind makes a VM for it: as long as the object is
   * there it stays marked and its fleet only shrinks.
   */
  lemma {:induction false} DeletingFleetShrinks(ws: seq<World>, es: seq<Event>, k: Key, i: nat, n: nat)
    requires IsRun(ws, es) && Stays(ws, es, k) && i <= n <= |es|
    requires ws[i].templates[k].deleting
    ensures ws[n].templates[k].deleting && FleetSize(ws[n], k) <= FleetSize(ws[i], k)
  {
    hide *;
    if i < n {
      DeletingFleetShrinks(ws, es, k, i, n - 1);
      StepOfRun(ws, es, k, n);
      DeletingStep(ws[n - 1], es[n - 1], k);
    }
  }

  /**
   * On the online path the template's finalizer goes only in a pass whose listing found no VM of it:
   * whatever is left then could not be read.
   */
  lemma FinalizerGoesLast(w: World, k: Key, o: DeleteOracle)
    requires k in w.templates && |w.vms| <= MAX_INT32 && o.reachable
    requires w.templates[k].finalizer && !Apply(w, Event.DeleteTemplate(k, o)).templates[k].finalizer
    ensures forall vm :: vm in w.vms && OwnedBy(vm, k, w.templates[k].spec) ==> vm in o.vm.hidden
    ensures Apply(w, Event.DeleteTemplate(k, o)).vms == w.vms
  {
    hide DeletePass, OwnedBy, Current;
    DeleteStep(w.vms, w.held, k, w.templates[k], o);
    CurrentMembers(w.vms, k, w.templates[k].spec, o.vm.hidden);
  }
}
