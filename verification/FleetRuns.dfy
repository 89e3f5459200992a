/**
 * All runs of the controller against vSphere: templates come and go, passes are interleaved with
 * finalizers and with whatever users and vSphere do in between, and any call may fail.
 */
module FleetRuns {
  import opened Wrappers
  import opened GoFmt
  import opened Naming
  import opened Tags
  import opened Resources
  import opened Fleet
  import opened VmReconcile
  import opened PassLaws
  import opened Agents
  import opened Lifecycle

  datatype World = World(vms: seq<VM>, held: set<SecretRef>, templates: map<Key, Template>)

  /**
   * How far reconcileNormal gets: vSphere is out of reach; no NodePool is referenced; or it goes
   * through, in which case a rewritten annotation replaces the status in memory by the stored one.
   */
  datatype Course = Unreachable | NoNodePool | Proceed(desired: Int32, rewritten: bool)

  /** `links` are the agent names that the Agent part of the pass records. */
  datatype NormalOracle = NormalOracle(
    finalizerOk: bool, course: Course, vm: VmOracle, links: seq<string>, statusOk: bool)

  datatype Event =
    // the controller
    | ReconcileTemplate(k: Key, normal: NormalOracle)
    | DeleteTemplate(k: Key, deletion: DeleteOracle)
    | ReleaseAgent(agent: Agent, namespace: string, finalizer: FinalizerOracle)
    // users
    | CreateTemplate(k: Key, spec: Spec)
    | EditTemplate(k: Key, spec: Spec)
    | RequestDeletion(k: Key)
    | Vanish(k: Key)
    // vSphere
    | VMAppears(vm: VM)
    | VMDisappears(i: nat)
    | VMPower(i: nat, on: bool)
    | VMListedLast(i: nat)
    | VMMoves(i: nat, folder: string, name: string)

  function Relinked(status: Status, links: seq<string>): Status {
    status.(vmStatus := seq(|status.vmStatus|, i requires 0 <= i < |status.vmStatus| =>
                              if i < |links| then status.vmStatus[i].(agentName := links[i]) else status.vmStatus[i]))
  }

  /** The status that reconcileVMs starts from. */
  function StartStatus(t: Template, course: Course): Status
    requires course.Proceed?
  {
    if course.rewritten then t.status else t.status.(desiredReplicas := course.desired)
  }

  /** Reconcile and reconcileNormal, for a template that is not being deleted. */
  function NormalPass(w: World, k: Key, o: NormalOracle): World
    requires k in w.templates
  {
    var t := w.templates[k];
    if !t.finalizer && !o.finalizerOk then w
    else
      var t' := t.(finalizer := true);
      match o.course
      case Unreachable => w.(templates := w.templates[k := t'])
      case NoNodePool => w.(templates := w.templates[k := WithStatus(t', t.status.(desiredReplicas := 0), o.statusOk)])
      case Proceed(_, _) =>
        var out := VmPass(w.vms, w.held, k, t.spec, StartStatus(t, o.course), o.vm);
        var status := if out.ok then Relinked(out.status, o.links) else out.status;
        World(out.vms, out.held, w.templates[k := WithStatus(t', status, o.statusOk)])
  }

  function Known(w: World, k: Key): Option<Template> {
    if k in w.templates then Some(w.templates[k]) else None
  }

  function Release(w: World, a: Agent, namespace: string, o: FinalizerOracle): World {
    var k := TemplateKey(a, namespace);
    var out := Finalize(w.vms, a, namespace, Known(w, k), o);
    w.(vms := out.vms, templates := if out.template.Some? then w.templates[k := out.template.value] else w.templates)
  }

  ghost predicate Foreign(vm: VM) {
    forall k :: ValidKey(k) ==> !TaggedFor(vm, k)
  }

  ghost predicate Enabled(w: World, e: Event) {
    match e
    case ReconcileTemplate(k, o) =>
      && k in w.templates && !w.templates[k].deleting && (o.course.Proceed? ==> Reconciles(w.templates[k].spec))
      && ValidPlan(o.vm.plan, k, w.templates[k].spec) && |w.vms| <= MAX_INT32
    case DeleteTemplate(k, o) =>
      && k in w.templates && w.templates[k].deleting
      && ValidPlan(o.vm.plan, k, w.templates[k].spec) && |w.vms| <= MAX_INT32
    case ReleaseAgent(a, namespace, o) => o.found.Some? ==> o.found.value in w.vms
    case CreateTemplate(k, _) => ValidKey(k) && k !in w.templates
    case EditTemplate(k, _) => k in w.templates
    case RequestDeletion(k) => k in w.templates
    case Vanish(k) => k in w.templates && w.templates[k].deleting && !w.templates[k].finalizer
    case VMAppears(vm) => Foreign(vm)
    case VMDisappears(i) => i < |w.vms|
    case VMPower(i, _) => i < |w.vms|
    case VMListedLast(i) => i < |w.vms|
    case VMMoves(i, _, _) => i < |w.vms|
  }

  function Apply(w: World, e: Event): World {
    match e
    case ReconcileTemplate(k, o) => if k in w.templates then NormalPass(w, k, o) else w
    case DeleteTemplate(k, o) =>
      if k !in w.templates then w
      else
        var out := DeletePass(w.vms, w.held, k, w.templates[k], o);
        World(out.vms, out.held, w.templates[k := out.stored])
    case ReleaseAgent(a, namespace, o) => Release(w, a, namespace, o)
    case CreateTemplate(k, spec) => w.(templates := w.templates[k := Template(spec, NEW_STATUS, false, false)])
    case EditTemplate(k, spec) =>
      if k in w.templates then w.(templates := w.templates[k := w.templates[k].(spec := spec)]) else w
    case RequestDeletion(k) =>
      if k !in w.templates then w
      else if w.templates[k].finalizer then w.(templates := w.templates[k := w.templates[k].(deleting := true)])
      else w.(templates := w.templates - {k})
    case Vanish(k) => w.(templates := w.templates - {k})
    case VMAppears(vm) => w.(vms := w.vms + [vm])
    case VMDisappears(i) => if i < |w.vms| then w.(vms := w.vms[..i] + w.vms[i + 1..]) else w
    case VMPower(i, on) => if i < |w.vms| then w.(vms := w.vms[i := w.vms[i].(poweredOn := on)]) else w
    case VMListedLast(i) => if i < |w.vms| then w.(vms := w.vms[..i] + w.vms[i + 1..] + [w.vms[i]]) else w
    case VMMoves(i, folder, name) =>
      if i < |w.vms| then w.(vms := w.vms[i := w.vms[i].(folder := folder, name := name)]) else w
  }

  ghost predicate IsRun(ws: seq<World>, es: seq<Event>) {
    && |ws| == |es| + 1
    && forall i :: 0 <= i < |es| ==> Enabled(ws[i], es[i]) && ws[i + 1] == Apply(ws[i], es[i])
  }

  lemma RunStep(ws: seq<World>, es: seq<Event>, n: nat)
    requires IsRun(ws, es) && 0 < n <= |es|
    ensures |ws| == |es| + 1 && Enabled(ws[n - 1], es[n - 1]) && ws[n] == Apply(ws[n - 1], es[n - 1])
  {
    hide Enabled, Apply;
  }

  /* ---------- no VM outlives its template ---------- */

  /** The template that a VM is tagged with is there, holds its finalizer, and sees the VM. */
  predicate Anchored(vm: VM, k: Key, w: World) {
    k in w.templates && w.templates[k].finalizer && OwnedBy(vm, k, w.templates[k].spec)
  }

  /** The credential secret that the VM's template refers to is kept from being deleted. */
  predicate SecretHeld(k: Key, w: World) {
    k in w.templates && SecretOf(k, w.templates[k].spec) in w.held
  }

  ghost predicate NoOrphans(w: World) {
    && (forall k :: k in w.templates ==> ValidKey(k))
    && (forall vm, k :: vm in w.vms && ValidKey(k) && TaggedFor(vm, k) ==> Anchored(vm, k, w))
  }

  ghost predicate SecretsHeld(w: World) {
    forall vm, k :: vm in w.vms && ValidKey(k) && TaggedFor(vm, k) ==> SecretHeld(k, w)
  }

  lemma DeletingPassCreatesNothing(vms: seq<VM>, held: set<SecretRef>, k: Key, spec: Spec, status: Status, o: VmOracle)
    requires |vms| <= MAX_INT32 && status.desiredReplicas == 0
    ensures VmPass(vms, held, k, spec, status, o).vms == vms && VmPass(vms, held, k, spec, status, o).held == held
    ensures var out := VmPass(vms, held, k, spec, status, o);
            && out.ok == o.listed
            && (out.ok ==> out.status.currentReplicas == |Current(vms, k, spec, o.hidden)|)
  {
    hide Current, Entries, ReadyCount;
    assert !Scaling(0, |Current(vms, k, spec, o.hidden)|);
  }

  /** The deleting pass gets to store a status that counts no VM. */
  predicate CountsNone(vms: seq<VM>, k: Key, t: Template, o: DeleteOracle) {
    o.vm.listed && o.statusOk && Current(vms, k, t.spec, o.vm.hidden) == []
  }

  /** When the finalizer goes: after an empty listing, or, if vSphere is out of reach, by the stored count. */
  predicate Drops(vms: seq<VM>, k: Key, t: Template, o: DeleteOracle) {
    t.finalizer && o.updateOk && if o.reachable then CountsNone(vms, k, t, o) else t.status.currentReplicas == 0
  }

  /** When the secret is let go. */
  predicate Releases(vms: seq<VM>, k: Key, t: Template, o: DeleteOracle) {
    t.finalizer && o.reachable && o.secretOk && CountsNone(vms, k, t, o)
  }

  /** Deleting makes and destroys no VM, and lets go of finalizer and secret under exactly these guards. */
  lemma DeleteStep(vms: seq<VM>, held: set<SecretRef>, k: Key, t: Template, o: DeleteOracle)
    requires |vms| <= MAX_INT32
    ensures var out := DeletePass(vms, held, k, t, o);
            && out.vms == vms && out.stored.spec == t.spec && out.stored.deleting == t.deleting
            && (out.stored.finalizer <==> t.finalizer && !Drops(vms, k, t, o))
            && out.held == if Releases(vms, k, t, o) then held - {SecretOf(k, t.spec)} else held
  {
    hide VmPass, Current;
    DeletingPassCreatesNothing(vms, held, k, t.spec, t.status.(desiredReplicas := 0), o.vm);
  }

  /** The VMs that a pass for a live template makes. */
  function Makes(w: World, k: Key, o: NormalOracle): seq<VM>
    requires k in w.templates
  {
    var t := w.templates[k];
    if o.course.Proceed? && (t.finalizer || o.finalizerOk) then
      NewVMs(w.vms, k, t.spec, StartStatus(t, o.course).desiredReplicas, o.vm)
    else []
  }

  /** The pass lists no VM and makes some: it is the one to put the finalizer on the secret. */
  predicate MakesFirst(w: World, k: Key, o: NormalOracle)
    requires k in w.templates
  {
    Makes(w, k, o) != [] && Current(w.vms, k, w.templates[k].spec, o.vm.hidden) == []
  }

  lemma PassHolds(vms: seq<VM>, held: set<SecretRef>, k: Key, spec: Spec, status: Status, o: VmOracle)
    ensures var out := VmPass(vms, held, k, spec, status, o);
            && held <= out.held <= held + {SecretOf(k, spec)}
            && (out.held != held ==> Current(vms, k, spec, o.hidden) == [] && o.secretOk)
            && (NewVMs(vms, k, spec, status.desiredReplicas, o) != [] ==>
                  (SecretOf(k, spec) in out.held <==>
                     SecretOf(k, spec) in held || (Current(vms, k, spec, o.hidden) == [] && o.secretOk)))
  {
    hide Current, Batch, Rebuilt, Wrap32, SecretOf;
  }

  /**
   * A pass makes VMs only for a template that holds its finalizer by then, and puts the finalizer on
   * the secret only if it lists no VM: a secret call that failed is not tried again under a fleet.
   */
  lemma NormalVMs(w: World, k: Key, o: NormalOracle)
    requires k in w.templates
    ensures var w', secret := NormalPass(w, k, o), SecretOf(k, w.templates[k].spec);
            && w'.vms == w.vms + Makes(w, k, o)
            && w.held <= w'.held <= w.held + {secret}
            && (w'.held != w.held ==> Current(w.vms, k, w.templates[k].spec, o.vm.hidden) == [] && o.vm.secretOk)
            && (Makes(w, k, o) != [] ==>
                  && w'.templates[k].finalizer
                  && (secret in w'.held <==> secret in w.held || (MakesFirst(w, k, o) && o.vm.secretOk)))
  {
    hide VmPass, NewVMs, Current, Relinked, SecretOf, StartStatus;
    assert w.vms + [] == w.vms;
    if o.course.Proceed? {
      var t := w.templates[k];
      var status := StartStatus(t, o.course);
      PassAppends(w.vms, w.held, k, t.spec, status, o.vm);
      PassHolds(w.vms, w.held, k, t.spec, status, o.vm);
    }
  }

  lemma NormalStep(w: World, k: Key, o: NormalOracle)
    requires k in w.templates && ValidPlan(o.vm.plan, k, w.templates[k].spec)
    ensures var w' := NormalPass(w, k, o);
            var t := w.templates[k];
            && w'.templates.Keys == w.templates.Keys
            && (forall j :: j in w.templates && j != k ==> w'.templates[j] == w.templates[j])
            && w'.templates[k].spec == t.spec && w'.templates[k].deleting == t.deleting
            && (t.finalizer ==> w'.templates[k].finalizer)
  {
    hide VmPass, Relinked, StartStatus;
  }

  lemma MadeAreOwned(w: World, k: Key, o: NormalOracle, vm: VM)
    requires k in w.templates && ValidPlan(o.vm.plan, k, w.templates[k].spec)
    requires vm in Makes(w, k, o)
    ensures OwnedBy(vm, k, w.templates[k].spec)
  {
    hide Current, Batch, OwnedBy, Wrap32;
    var t := w.templates[k];
    var desired := StartStatus(t, o.course).desiredReplicas;
    var fleet := Current(w.vms, k, t.spec, o.vm.hidden);
    var plan := Padded(o.vm.plan, ToCreate(desired, |fleet|, t.spec.maxVms));
    PaddedValid(o.vm.plan, |plan|, k, t.spec);
    BatchOwned(w.vms, k, t.spec, Names(fleet), plan);
  }

  lemma TagIgnoresPower(vm: VM, on: bool, k: Key)
    ensures TaggedFor(vm.(poweredOn := on), k) == TaggedFor(vm, k)
  {
  }

  lemma OwnershipIgnoresPower(vm: VM, on: bool, k: Key, spec: Spec)
    ensures OwnedBy(vm.(poweredOn := on), k, spec) == OwnedBy(vm, k, spec)
  {
  }

  lemma NoOrphansReconcile(w: World, k: Key, o: NormalOracle)
    requires NoOrphans(w) && Enabled(w, ReconcileTemplate(k, o))
    ensures NoOrphans(NormalPass(w, k, o))
  {
    hide NormalPass, OwnedBy, TaggedFor, ValidKey;
    var w' := NormalPass(w, k, o);
    NormalStep(w, k, o);
    NormalVMs(w, k, o);
    forall vm, j | vm in w'.vms && ValidKey(j) && TaggedFor(vm, j) ensures Anchored(vm, j, w') {
      if vm in w.vms {
        assert Anchored(vm, j, w);
      } else {
        MadeAreOwned(w, k, o, vm);
        OwnersAgree(vm, j, k, w.templates[k].spec);
      }
    }
  }

  lemma OwnersAgree(vm: VM, j: Key, k: Key, spec: Spec)
    requires ValidKey(j) && ValidKey(k) && TaggedFor(vm, j) && OwnedBy(vm, k, spec)
    ensures j == k
  {
    OwnerInjective(j, k);
  }

  /** A deletion leaves no VM behind exactly when its pass drops the finalizer of an empty fleet only. */
  lemma NoOrphansDeleteIff(w: World, k: Key, o: DeleteOracle)
    requires NoOrphans(w) && Enabled(w, DeleteTemplate(k, o))
    ensures NoOrphans(Apply(w, DeleteTemplate(k, o))) <==>
            (Drops(w.vms, k, w.templates[k], o) ==> Owned(w.vms, k, w.templates[k].spec) == [])
  {
    hide DeletePass, OwnedBy, TaggedFor, ValidKey, Current, Drops;
    var t := w.templates[k];
    var w' := Apply(w, DeleteTemplate(k, o));
    DeleteStep(w.vms, w.held, k, t, o);
    CurrentMembers(w.vms, k, t.spec, {});
    var fleet := Owned(w.vms, k, t.spec);
    if !Drops(w.vms, k, t, o) || fleet == [] {
      forall vm, j | vm in w'.vms && ValidKey(j) && TaggedFor(vm, j) ensures Anchored(vm, j, w') {
        assert Anchored(vm, j, w);
        if j == k { assert vm in fleet; }
      }
    } else {
      assert fleet[0] in fleet;
      OwnedIsTagged(fleet[0], k, t.spec);
      assert !Anchored(fleet[0], k, w');
    }
  }

  /** The edited spec still finds every VM of the fleet by folder and prefix. */
  predicate KeepsSight(w: World, k: Key, spec: Spec)
    requires k in w.templates
  {
    forall vm :: vm in Owned(w.vms, k, w.templates[k].spec) ==> vm.folder == spec.folder && Prefix(k, spec) < vm.name
  }

  /** Folder and prefix may be edited at any time; the fleet is lost exactly when its VMs do not fit the new ones. */
  lemma NoOrphansEditIff(w: World, k: Key, spec: Spec)
    requires NoOrphans(w) && k in w.templates
    ensures NoOrphans(Apply(w, EditTemplate(k, spec))) <==> KeepsSight(w, k, spec)
  {
    hide TaggedFor, ValidKey, Current, Prefix;
    var t := w.templates[k];
    var w' := Apply(w, EditTemplate(k, spec));
    CurrentMembers(w.vms, k, t.spec, {});
    if KeepsSight(w, k, spec) {
      forall vm, j | vm in w'.vms && ValidKey(j) && TaggedFor(vm, j) ensures Anchored(vm, j, w') {
        assert Anchored(vm, j, w);
        if j == k { assert vm in Owned(w.vms, k, t.spec); }
      }
    } else {
      var vm :| vm in Owned(w.vms, k, t.spec) && !(vm.folder == spec.folder && Prefix(k, spec) < vm.name);
      assert OwnedBy(vm, k, t.spec);
      assert !Anchored(vm, k, w');
    }
  }

  /** The template that a VM is tagged with finds it by its new folder and name. */
  predicate StaysInSight(w: World, vm: VM, folder: string, name: string) {
    forall k :: k in w.templates && TaggedFor(vm, k) ==>
                  folder == w.templates[k].spec.folder && Prefix(k, w.templates[k].spec) < name
  }

  lemma MovedTag(vm: VM, folder: string, name: string, k: Key)
    ensures TaggedFor(vm.(folder := folder, name := name), k) == TaggedFor(vm, k)
  {
  }

  lemma MovedOwned(vm: VM, folder: string, name: string, k: Key, spec: Spec)
    ensures OwnedBy(vm.(folder := folder, name := name), k, spec) <==>
            TaggedFor(vm, k) && folder == spec.folder && Prefix(k, spec) < name
  {
    hide Prefix;
  }

  /** A VM that is moved or renamed in vSphere is lost exactly when its template's folder or prefix no longer fits. */
  lemma NoOrphansMoveIff(w: World, i: nat, folder: string, name: string)
    requires NoOrphans(w) && i < |w.vms|
    ensures NoOrphans(Apply(w, VMMoves(i, folder, name))) <==> StaysInSight(w, w.vms[i], folder, name)
  {
    hide OwnedBy, TaggedFor, ValidKey, Prefix;
    var w', vm := Apply(w, VMMoves(i, folder, name)), w.vms[i];
    var moved := vm.(folder := folder, name := name);
    assert w'.vms[i] == moved;
    if StaysInSight(w, vm, folder, name) {
      forall x, j | x in w'.vms && ValidKey(j) && TaggedFor(x, j) ensures Anchored(x, j, w') {
        if x in w.vms {
          assert Anchored(x, j, w);
        } else {
          assert x == moved;
          MovedTag(vm, folder, name, j);
          assert Anchored(vm, j, w);
          MovedOwned(vm, folder, name, j, w.templates[j].spec);
        }
      }
    } else {
      var k :| k in w.templates && TaggedFor(vm, k)
               && !(folder == w.templates[k].spec.folder && Prefix(k, w.templates[k].spec) < name);
      MovedTag(vm, folder, name, k);
      MovedOwned(vm, folder, name, k, w.templates[k].spec);
      assert !Anchored(moved, k, w');
    }
  }

  /** A released Agent takes out or switches off at most a VM, and of a template only the status changes. */
  lemma ReleaseStep(w: World, a: Agent, namespace: string, o: FinalizerOracle)
    ensures var w' := Release(w, a, namespace, o);
            && w'.held == w.held && w'.templates.Keys == w.templates.Keys
            && (forall vm :: vm in w'.vms ==> Kept(vm, w.vms))
            && (forall k :: k in w.templates ==> w'.templates[k] == w.templates[k].(status := w'.templates[k].status))
            && (w'.vms == w.vms ||
                (o.found.Some? && w'.vms in {Removed(w.vms, o.found.value), SwitchedOff(w.vms, o.found.value)}))
  {
    hide LinkedVM, Unlinked, Removed, SwitchedOff, Lookup, TaggedFor;
    forall vm | vm in w.vms ensures Kept(vm, w.vms) {
      KeptItself(vm, w.vms);
    }
    if o.found.Some? {
      RemovedIsLess(w.vms, o.found.value);
      SwitchedIsSame(w.vms, o.found.value);
      forall vm | vm in SwitchedOff(w.vms, o.found.value) ensures Kept(vm, w.vms) {
        KeptItself(o.found.value, w.vms);
      }
    }
  }

  lemma KeptItself(vm: VM, vms: seq<VM>)
    ensures vm in vms ==> Kept(vm, vms) && Kept(vm.(poweredOn := false), vms)
  {
    assert vm == vm.(poweredOn := true) || vm == vm.(poweredOn := false);
  }

  lemma NoOrphansRelease(w: World, a: Agent, namespace: string, o: FinalizerOracle)
    requires NoOrphans(w)
    ensures NoOrphans(Release(w, a, namespace, o))
    ensures SecretsHeld(w) ==> SecretsHeld(Release(w, a, namespace, o))
  {
    hide Release, OwnedBy, TaggedFor, ValidKey;
    ReleaseStep(w, a, namespace, o);
    var w' := Release(w, a, namespace, o);
    forall vm, j | vm in w'.vms && ValidKey(j) && TaggedFor(vm, j)
      ensures Anchored(vm, j, w') && (SecretsHeld(w) ==> SecretHeld(j, w'))
    {
      KeptIsAnchored(w, vm, j);
    }
  }

  predicate Environment(e: Event) {
    !e.ReconcileTemplate? && !e.DeleteTemplate? && !e.ReleaseAgent? && !e.EditTemplate? && !e.VMMoves?
  }

  /** Users and vSphere add no VM with a template's tag, and a template with VMs cannot just go. */
  lemma EnvironmentStep(w: World, e: Event)
    requires Environment(e) && Enabled(w, e)
    ensures var w' := Apply(w, e);
            && w'.held == w.held
            && (forall vm :: vm in w'.vms ==> vm in w.vms || Foreign(vm) || Kept(vm, w.vms))
            && (forall k :: k in w.templates && w.templates[k].finalizer ==>
                  k in w'.templates && w'.templates[k].finalizer && w'.templates[k].spec == w.templates[k].spec)
            && (forall k :: k in w'.templates ==> k in w.templates || ValidKey(k))
  {
    hide ValidKey, Foreign, NEW_STATUS;
    if e.VMPower? {
      var was := w.vms[e.i];
      assert Kept(was.(poweredOn := e.on), w.vms) by {
        assert was == was.(poweredOn := true) || was == was.(poweredOn := false);
      }
    }
  }

  /** A VM that was there, in either power state. */
  predicate Kept(vm: VM, vms: seq<VM>) {
    vm.(poweredOn := true) in vms || vm.(poweredOn := false) in vms
  }

  lemma NoOrphansEnvironment(w: World, e: Event)
    requires NoOrphans(w) && Environment(e) && Enabled(w, e)
    ensures NoOrphans(Apply(w, e))
    ensures SecretsHeld(w) ==> SecretsHeld(Apply(w, e))
  {
    hide Apply, OwnedBy, TaggedFor, ValidKey;
    EnvironmentStep(w, e);
    var w' := Apply(w, e);
    forall vm, j | vm in w'.vms && ValidKey(j) && TaggedFor(vm, j)
      ensures Anchored(vm, j, w') && (SecretsHeld(w) ==> SecretHeld(j, w'))
    {
      KeptIsAnchored(w, vm, j);
    }
  }

  lemma KeptIsAnchored(w: World, vm: VM, j: Key)
    requires NoOrphans(w) && ValidKey(j) && TaggedFor(vm, j)
    requires vm in w.vms || Foreign(vm) || Kept(vm, w.vms)
    ensures Anchored(vm, j, w) && (SecretsHeld(w) ==> SecretHeld(j, w))
  {
    hide OwnedBy, TaggedFor, ValidKey, SecretHeld;
    if vm !in w.vms {
      var on :| vm.(poweredOn := on) in w.vms;
      TagIgnoresPower(vm, on, j);
      assert Anchored(vm.(poweredOn := on), j, w);
      OwnershipIgnoresPower(vm, on, j, w.templates[j].spec);
      if SecretsHeld(w) { assert SecretHeld(j, w); }
    }
  }

  /** The guard of the steps that can leave a VM without its template. */
  predicate Sound(w: World, e: Event) {
    match e
    case DeleteTemplate(k, o) =>
      k in w.templates && Drops(w.vms, k, w.templates[k], o) ==> Owned(w.vms, k, w.templates[k].spec) == []
    case EditTemplate(k, spec) => k in w.templates ==> KeepsSight(w, k, spec)
    case VMMoves(i, folder, name) => i < |w.vms| ==> StaysInSight(w, w.vms[i], folder, name)
    case _ => true
  }

  /** A step keeps every VM with its template exactly when it is sound. */
  lemma NoOrphansStepIff(w: World, e: Event)
    requires NoOrphans(w) && Enabled(w, e)
    ensures NoOrphans(Apply(w, e)) <==> Sound(w, e)
  {
    hide Apply, NoOrphans, Drops, Owned, KeepsSight;
    match e {
      case ReconcileTemplate(k, o) => ReconcileIsNormal(w, k, o); NoOrphansReconcile(w, k, o);
      case DeleteTemplate(k, o) => NoOrphansDeleteIff(w, k, o);
      case ReleaseAgent(a, namespace, o) => ReleaseIs(w, a, namespace, o); NoOrphansRelease(w, a, namespace, o);
      case EditTemplate(k, spec) => NoOrphansEditIff(w, k, spec);
      case VMMoves(i, folder, name) => NoOrphansMoveIff(w, i, folder, name);
      case _ => NoOrphansEnvironment(w, e);
    }
  }

  lemma ReconcileIsNormal(w: World, k: Key, o: NormalOracle)
    requires k in w.templates
    ensures Apply(w, ReconcileTemplate(k, o)) == NormalPass(w, k, o)
  {
  }

  lemma ReleaseIs(w: World, a: Agent, namespace: string, o: FinalizerOracle)
    ensures Apply(w, ReleaseAgent(a, namespace, o)) == Release(w, a, namespace, o)
  {
  }

  /**
   * Deletion safety over all runs: whatever else fails, a VM that carries a template's tag is never
   * without that template, finalizer and all, as long as no step drops a finalizer over a fleet.
   */
  lemma {:induction false} NoOrphansInAnyRun(ws: seq<World>, es: seq<Event>, n: nat)
    requires IsRun(ws, es) && n <= |es|
    requires NoOrphans(ws[0])
    requires forall i :: 0 <= i < n ==> Sound(ws[i], es[i])
    ensures NoOrphans(ws[n])
  {
    hide *;
    if n > 0 {
      NoOrphansInAnyRun(ws, es, n - 1);
      RunStep(ws, es, n);
      NoOrphansStepIff(ws[n - 1], es[n - 1]);
    }
  }

  /** And only then: the runs that never orphan a VM are exactly those of sound steps. */
  lemma NoOrphansIff(ws: seq<World>, es: seq<Event>)
    requires IsRun(ws, es) && NoOrphans(ws[0])
    ensures (forall n :: 0 <= n < |ws| ==> NoOrphans(ws[n])) <==> (forall i :: 0 <= i < |es| ==> Sound(ws[i], es[i]))
  {
    hide Apply, Enabled, Sound, NoOrphans;
    if forall i :: 0 <= i < |es| ==> Sound(ws[i], es[i]) {
      forall n | 0 <= n < |ws| ensures NoOrphans(ws[n]) {
        NoOrphansInAnyRun(ws, es, n);
      }
    }
    if forall n :: 0 <= n < |ws| ==> NoOrphans(ws[n]) {
      forall i | 0 <= i < |es| ensures Sound(ws[i], es[i]) {
        assert ws[i + 1] == Apply(ws[i], es[i]) && NoOrphans(ws[i + 1]);
        NoOrphansStepIff(ws[i], es[i]);
      }
    }
  }

  /* ---------- the credential secret ---------- */

  lemma OwnedIsTagged(vm: VM, k: Key, spec: Spec)
    requires OwnedBy(vm, k, spec)
    ensures TaggedFor(vm, k)
  {
  }

  /**
   * The guard of the steps that can leave a fleet without its secret: the first VM of a template comes
   * with the secret held, no template with a fleet refers to a secret that is let go, and a template
   * with a fleet is only pointed at a secret that is held.
   */
  predicate KeepsSecrets(w: World, e: Event) {
    match e
    case ReconcileTemplate(k, o) =>
      k in w.templates && MakesFirst(w, k, o) ==> o.vm.secretOk || SecretOf(k, w.templates[k].spec) in w.held
    case DeleteTemplate(k, o) =>
      k in w.templates && Releases(w.vms, k, w.templates[k], o) ==>
        forall j :: j in w.templates && SecretOf(j, w.templates[j].spec) == SecretOf(k, w.templates[k].spec) ==>
                      Owned(w.vms, j, w.templates[j].spec) == []
    case EditTemplate(k, spec) =>
      k in w.templates && Owned(w.vms, k, w.templates[k].spec) != [] ==> SecretOf(k, spec) in w.held
    case _ => true
  }

  /** A fleet's secret is held exactly when the secret of each of its VMs is. */
  lemma FleetSecretHeld(w: World, k: Key)
    requires NoOrphans(w) && SecretsHeld(w) && k in w.templates && Owned(w.vms, k, w.templates[k].spec) != []
    ensures SecretHeld(k, w)
  {
    hide OwnedBy, TaggedFor, ValidKey, Current;
    CurrentMembers(w.vms, k, w.templates[k].spec, {});
    var vm := Owned(w.vms, k, w.templates[k].spec)[0];
    OwnedIsTagged(vm, k, w.templates[k].spec);
  }

  lemma SecretsHeldReconcileIff(w: World, k: Key, o: NormalOracle)
    requires NoOrphans(w) && SecretsHeld(w) && Enabled(w, ReconcileTemplate(k, o))
    ensures SecretsHeld(NormalPass(w, k, o)) <==> KeepsSecrets(w, ReconcileTemplate(k, o))
  {
    hide NormalPass, OwnedBy, TaggedFor, ValidKey, Current, Makes, SecretOf;
    var w', t := NormalPass(w, k, o), w.templates[k];
    NormalStep(w, k, o);
    NormalVMs(w, k, o);
    var made := Makes(w, k, o);
    if made != [] && Current(w.vms, k, t.spec, o.vm.hidden) != [] {
      ListedIsOwned(w.vms, k, t.spec, o.vm.hidden);
      FleetSecretHeld(w, k);
    }
    forall vm | vm in made ensures TaggedFor(vm, k) && vm in w'.vms {
      MadeAreOwned(w, k, o, vm);
      OwnedIsTagged(vm, k, t.spec);
    }
    if KeepsSecrets(w, ReconcileTemplate(k, o)) {
      forall vm, j | vm in w'.vms && ValidKey(j) && TaggedFor(vm, j) ensures SecretHeld(j, w') {
        if vm in w.vms {
          assert SecretHeld(j, w);
        } else {
          MadeAreOwned(w, k, o, vm);
          OwnersAgree(vm, j, k, t.spec);
        }
      }
    } else {
      assert made[0] in made;
      assert !SecretHeld(k, w');
    }
  }

  lemma ListedIsOwned(vms: seq<VM>, k: Key, spec: Spec, hidden: set<VM>)
    requires Current(vms, k, spec, hidden) != []
    ensures Owned(vms, k, spec) != []
  {
    CurrentCount(vms, k, spec, hidden);
    hide Current;
  }

  lemma SecretsHeldDeleteIff(w: World, k: Key, o: DeleteOracle)
    requires NoOrphans(w) && SecretsHeld(w) && Enabled(w, Event.DeleteTemplate(k, o))
    ensures SecretsHeld(Apply(w, Event.DeleteTemplate(k, o))) <==> KeepsSecrets(w, Event.DeleteTemplate(k, o))
  {
    hide DeletePass, OwnedBy, TaggedFor, ValidKey, SecretOf, Current, Releases;
    var t := w.templates[k];
    var w' := Apply(w, Event.DeleteTemplate(k, o));
    DeleteStep(w.vms, w.held, k, t, o);
    if KeepsSecrets(w, Event.DeleteTemplate(k, o)) {
      forall vm, j | vm in w'.vms && ValidKey(j) && TaggedFor(vm, j) ensures SecretHeld(j, w') {
        assert Anchored(vm, j, w) && SecretHeld(j, w);
        CurrentMembers(w.vms, j, w.templates[j].spec, {});
        assert vm in Owned(w.vms, j, w.templates[j].spec);
      }
    } else {
      var j :| j in w.templates && SecretOf(j, w.templates[j].spec) == SecretOf(k, t.spec)
               && Owned(w.vms, j, w.templates[j].spec) != [];
      NoSecretNoFleet(w, w', j);
    }
  }

  /** A fleet that is still there without its secret breaks the invariant. */
  lemma NoSecretNoFleet(w: World, w': World, j: Key)
    requires NoOrphans(w) && j in w.templates && Owned(w.vms, j, w.templates[j].spec) != []
    requires w'.vms == w.vms && !SecretHeld(j, w')
    ensures !SecretsHeld(w')
  {
    hide OwnedBy, TaggedFor, ValidKey, Current, SecretHeld;
    CurrentMembers(w.vms, j, w.templates[j].spec, {});
    var vm := Owned(w.vms, j, w.templates[j].spec)[0];
    OwnedIsTagged(vm, j, w.templates[j].spec);
  }

  lemma SecretsHeldEditIff(w: World, k: Key, spec: Spec)
    requires NoOrphans(w) && SecretsHeld(w) && k in w.templates
    ensures SecretsHeld(Apply(w, EditTemplate(k, spec))) <==> KeepsSecrets(w, EditTemplate(k, spec))
  {
    hide OwnedBy, TaggedFor, ValidKey, SecretOf, Current;
    var t := w.templates[k];
    var w' := Apply(w, EditTemplate(k, spec));
    if KeepsSecrets(w, EditTemplate(k, spec)) {
      forall vm, j | vm in w'.vms && ValidKey(j) && TaggedFor(vm, j) ensures SecretHeld(j, w') {
        assert Anchored(vm, j, w) && SecretHeld(j, w);
        CurrentMembers(w.vms, j, w.templates[j].spec, {});
        assert vm in Owned(w.vms, j, w.templates[j].spec);
      }
    } else {
      NoSecretNoFleet(w, w', k);
    }
  }

  lemma SecretsHeldMove(w: World, i: nat, folder: string, name: string)
    requires SecretsHeld(w) && i < |w.vms|
    ensures SecretsHeld(Apply(w, VMMoves(i, folder, name)))
  {
    hide TaggedFor, ValidKey, SecretHeld;
    var w' := Apply(w, VMMoves(i, folder, name));
    forall x, j | x in w'.vms && ValidKey(j) && TaggedFor(x, j) ensures SecretHeld(j, w') {
      if x !in w.vms {
        MovedTag(w.vms[i], folder, name, j);
      }
      assert SecretHeld(j, w);
      SameSecret(w, w', j);
    }
  }

  lemma SameSecret(w: World, w': World, k: Key)
    requires w'.templates == w.templates && w'.held == w.held
    ensures SecretHeld(k, w') == SecretHeld(k, w)
  {
  }

  /** A step keeps the secret of every fleet exactly under its guard. */
  lemma SecretsHeldStepIff(w: World, e: Event)
    requires NoOrphans(w) && SecretsHeld(w) && Enabled(w, e)
    ensures SecretsHeld(Apply(w, e)) <==> KeepsSecrets(w, e)
  {
    hide Apply, NoOrphans, SecretsHeld, Releases, MakesFirst;
    match e {
      case ReconcileTemplate(k, o) => ReconcileIsNormal(w, k, o); SecretsHeldReconcileIff(w, k, o);
      case DeleteTemplate(k, o) => SecretsHeldDeleteIff(w, k, o);
      case ReleaseAgent(a, namespace, o) => ReleaseIs(w, a, namespace, o); NoOrphansRelease(w, a, namespace, o);
      case EditTemplate(k, spec) => SecretsHeldEditIff(w, k, spec);
      case VMMoves(i, folder, name) => SecretsHeldMove(w, i, folder, name);
      case _ => NoOrphansEnvironment(w, e);
    }
  }

  /** In every reachable state, the secret of a template with VMs carries its finalizer. */
  lemma {:induction false} SecretsHeldInAnyRun(ws: seq<World>, es: seq<Event>, n: nat)
    requires IsRun(ws, es) && n <= |es|
    requires NoOrphans(ws[0]) && SecretsHeld(ws[0])
    requires forall i :: 0 <= i < n ==> Sound(ws[i], es[i]) && KeepsSecrets(ws[i], es[i])
    ensures SecretsHeld(ws[n])
  {
    hide *;
    if n > 0 {
      SecretsHeldInAnyRun(ws, es, n - 1);
      NoOrphansInAnyRun(ws, es, n - 1);
      RunStep(ws, es, n);
      SecretsHeldStepIff(ws[n - 1], es[n - 1]);
    }
  }

  /** Among the runs that orphan no VM, those that never lack a secret are exactly those of such steps. */
  lemma SecretsHeldIff(ws: seq<World>, es: seq<Event>)
    requires IsRun(ws, es) && NoOrphans(ws[0]) && SecretsHeld(ws[0])
    requires forall i :: 0 <= i < |es| ==> Sound(ws[i], es[i])
    ensures (forall n :: 0 <= n < |ws| ==> SecretsHeld(ws[n])) <==>
            (forall i :: 0 <= i < |es| ==> KeepsSecrets(ws[i], es[i]))
  {
    hide Apply, Enabled, Sound, NoOrphans, SecretsHeld, KeepsSecrets;
    if forall i :: 0 <= i < |es| ==> KeepsSecrets(ws[i], es[i]) {
      forall n | 0 <= n < |ws| ensures SecretsHeld(ws[n]) {
        SecretsHeldInAnyRun(ws, es, n);
      }
    }
    if forall n :: 0 <= n < |ws| ==> SecretsHeld(ws[n]) {
      forall i | 0 <= i < |es| ensures KeepsSecrets(ws[i], es[i]) {
        assert ws[i + 1] == Apply(ws[i], es[i]) && SecretsHeld(ws[i + 1]);
        NoOrphansInAnyRun(ws, es, i);
        SecretsHeldStepIff(ws[i], es[i]);
      }
    }
  }

  predicate OneTemplatePerSecret(w: World) {
    forall j, k :: j in w.templates && k in w.templates && j != k ==>
                     SecretOf(j, w.templates[j].spec) != SecretOf(k, w.templates[k].spec)
  }

  /** With one template a secret, letting go is safe if the listing that came out empty missed no VM. */
  lemma OwnSecretIsKept(w: World, k: Key, o: DeleteOracle)
    requires OneTemplatePerSecret(w) && k in w.templates
    requires Current(w.vms, k, w.templates[k].spec, o.vm.hidden) == [] ==> Owned(w.vms, k, w.templates[k].spec) == []
    ensures KeepsSecrets(w, Event.DeleteTemplate(k, o))
  {
    hide Current, SecretOf;
  }
}
