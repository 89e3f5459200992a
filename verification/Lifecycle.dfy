/**
 * The ends of lives (controllers/vmwarenodepooltemplate_controller.go): deleting a template, and the
 * finalizer of a deleted Agent that is meant to take its VM along.
 */
module Lifecycle {
  import opened Wrappers
  import opened GoFmt
  import opened Naming
  import opened Tags
  import opened Resources
  import opened Fleet
  import opened VmReconcile
  import opened Agents

  /* ---------- deleting a template ---------- */

  /** `reachable`: credentials load, the connection opens, the datacenter is found. */
  datatype DeleteOracle = DeleteOracle(reachable: bool, vm: VmOracle, statusOk: bool, secretOk: bool, updateOk: bool)

  datatype DeleteOutcome = DeleteOutcome(vms: seq<VM>, held: set<SecretRef>, stored: Template)

  function Unfinalized(t: Template, updateOk: bool): Template {
    if updateOk then t.(finalizer := false) else t
  }

  function WithStatus(t: Template, status: Status, statusOk: bool): Template {
    if statusOk then t.(status := status) else t
  }

  function DeletePass(vms: seq<VM>, held: set<SecretRef>, k: Key, t: Template, o: DeleteOracle): DeleteOutcome {
    if !t.finalizer then DeleteOutcome(vms, held, t)
    else if !o.reachable then
      DeleteOutcome(vms, held, if t.status.currentReplicas == 0 then Unfinalized(t, o.updateOk) else t)
    else
      var out := VmPass(vms, held, k, t.spec, t.status.(desiredReplicas := 0), o.vm);
      var t' := WithStatus(t, out.status, o.statusOk);
      if !out.ok || !o.statusOk || out.status.currentReplicas > 0 then DeleteOutcome(out.vms, out.held, t')
      else
        var held' := if o.secretOk then out.held - {SecretOf(k, t.spec)} else out.held;
        DeleteOutcome(out.vms, held', Unfinalized(t', o.updateOk))
  }

  /** The templates in the API server. */
  class TemplateStore {
    var templates: map<Key, Template>
  }

  /** reconcileDelete. */
  method ReconcileDelete(store: TemplateStore, vc: VCenter, secrets: SecretStore, k: Key, o: DeleteOracle)
    requires k in store.templates
    requires ValidPlan(o.vm.plan, k, store.templates[k].spec) && Plain(Prefix(k, store.templates[k].spec))
    requires |vc.vms| <= MAX_INT32
    modifies store, vc, secrets
    ensures var out := DeletePass(old(vc.vms), old(secrets.held), k, old(store.templates[k]), o);
            && vc.vms == out.vms && secrets.held == out.held
            && store.templates == old(store.templates)[k := out.stored]
  {
    hide VmPass, ValidPlan, Plain, Prefix, SecretOf;
    var stored := store.templates[k];
    assert store.templates == store.templates[k := stored];
    if !stored.finalizer {
      return;
    }
    if !o.reachable {
      if stored.status.currentReplicas == 0 && o.updateOk {
        store.templates := store.templates[k := stored.(finalizer := false)];
      }
      return;
    }
    var t := new TemplateObject(k, stored);
    t.status := t.status.(desiredReplicas := 0);
    var ok := ReconcileVMs(t, vc, secrets, o.vm);
    if o.statusOk {
      stored := stored.(status := t.status);
      store.templates := store.templates[k := stored];
    }
    if !ok || !o.statusOk || t.status.currentReplicas > 0 {
      return;
    }
    RemoveSecretFinalizer(secrets, SecretOf(k, stored.spec), o.secretOk);
    if o.updateOk {
      store.templates := store.templates[k := stored.(finalizer := false)];
    }
  }

  /** removeSecretFinalizer; an error is logged and the deletion goes on. */
  method RemoveSecretFinalizer(secrets: SecretStore, secret: SecretRef, ok: bool)
    modifies secrets
    ensures secrets.held == if ok then old(secrets.held) - {secret} else old(secrets.held)
  {
    if ok && secret in secrets.held {
      secrets.held := secrets.held - {secret};
    }
  }

  /* ---------- the Agent finalizer ---------- */

  /** A destroy that fails may have got as far as switching the VM off. */
  datatype DestroyResult = Destroyed | Failed(switchedOff: bool)

  /**
   * How the calls turn out: reading the template may fail, vSphere may be out of reach, the search by
   * name finds some VM or none, its info may be unreadable, and each write may fail.
   */
  datatype FinalizerOracle = FinalizerOracle(
    getFails: bool, reachable: bool, found: Option<VM>, infoOk: bool, destroy: DestroyResult,
    statusOk: bool, updateOk: bool)

  /** What is left of the VMs, the template's stored status if there is one, and the Agent. */
  datatype Finalized = Finalized(vms: seq<VM>, template: Option<Template>, released: bool)

  /** The name of the first VM whose status entry names the Agent. */
  function LinkedVM(vs: seq<VMStatus>, agentName: string): Option<string> {
    if vs == [] then None
    else if vs[0].agentName == agentName then Some(vs[0].name)
    else LinkedVM(vs[1..], agentName)
  }

  function Unlinked(vs: seq<VMStatus>, agentName: string): seq<VMStatus> {
    if vs == [] then []
    else
      var last := vs[|vs| - 1];
      Unlinked(vs[..|vs| - 1], agentName) + if last.agentName != agentName then [last] else []
  }

  function Removed(vms: seq<VM>, vm: VM): seq<VM> {
    if vms == [] then [] else if vms[0] == vm then vms[1..] else [vms[0]] + Removed(vms[1..], vm)
  }

  function SwitchedOff(vms: seq<VM>, vm: VM): seq<VM> {
    if vms == [] then []
    else if vms[0] == vm then [vm.(poweredOn := false)] + vms[1..]
    else [vms[0]] + SwitchedOff(vms[1..], vm)
  }

  /**
   * The destroy call is made for the VM that was found. Ownership is checked against the template if
   * there is one; without a template it is not checked.
   */
  predicate Targets(vmName: string, owner: Option<Key>, o: FinalizerOracle) {
    && o.reachable && o.found.Some? && o.found.value.name == vmName
    && (owner.Some? ==> o.infoOk && TaggedFor(o.found.value, owner.value))
  }

  predicate Destroys(vmName: string, owner: Option<Key>, o: FinalizerOracle) {
    Targets(vmName, owner, o) && o.destroy.Destroyed?
  }

  function AfterDestroy(vms: seq<VM>, vmName: string, owner: Option<Key>, o: FinalizerOracle): seq<VM> {
    if !Targets(vmName, owner, o) then vms
    else if o.destroy.Destroyed? then Removed(vms, o.found.value)
    else if o.destroy.switchedOff then SwitchedOff(vms, o.found.value)
    else vms
  }

  function TemplateKey(a: Agent, namespace: string): Key {
    Key(namespace, Lookup(a.labels, ManagedBy))
  }

  /** reconcileAgentFinalizer, for a deleted Agent of the given namespace. */
  function Finalize(vms: seq<VM>, a: Agent, namespace: string, template: Option<Template>,
      o: FinalizerOracle): Finalized {
    if AgentCleanup !in a.finalizers || !a.deleting then Finalized(vms, template, false)
    else if ManagedBy !in a.labels then Finalized(vms, template, o.updateOk)
    else if o.getFails then Finalized(vms, template, false)
    else if template.None? then
      var vmName := Lookup(a.annotations, VMNameNote);
      Finalized(if vmName == "" then vms else AfterDestroy(vms, vmName, None, o), None, o.updateOk)
    else
      var t := template.value;
      match LinkedVM(t.status.vmStatus, a.name)
      case None => Finalized(vms, template, o.updateOk)
      case Some(vmName) =>
        var left := Unlinked(t.status.vmStatus, a.name);
        Finalized(AfterDestroy(vms, vmName, Some(TemplateKey(a, namespace)), o),
                  Some(WithStatus(t, t.status.(vmStatus := left, currentReplicas := |left|), o.statusOk)), o.updateOk)
  }

  method FindLinked(vs: seq<VMStatus>, agentName: string) returns (vmName: Option<string>)
    ensures vmName == LinkedVM(vs, agentName)
  {
    for i := 0 to |vs|
      invariant LinkedVM(vs[i..], agentName) == LinkedVM(vs, agentName)
    {
      if vs[i].agentName == agentName {
        return Some(vs[i].name);
      }
    }
    assert vs[|vs|..] == [];
    return None;
  }

  method DropLinked(vs: seq<VMStatus>, agentName: string) returns (newVMStatus: seq<VMStatus>)
    ensures newVMStatus == Unlinked(vs, agentName)
  {
    newVMStatus := [];
    for i := 0 to |vs|
      invariant newVMStatus == Unlinked(vs[..i], agentName)
    {
      assert vs[..i + 1][..i] == vs[..i];
      if vs[i].agentName != agentName {
        newVMStatus := newVMStatus + [vs[i]];
      }
    }
    assert vs[..|vs|] == vs;
  }

  /** DestroyVM: a VM that is on is switched off first. */
  method DestroyVM(vc: VCenter, vm: VM, r: DestroyResult) returns (ok: bool)
    modifies vc
    ensures ok <==> r.Destroyed?
    ensures vc.vms == if ok then Removed(old(vc.vms), vm)
                      else if r.switchedOff then SwitchedOff(old(vc.vms), vm) else old(vc.vms)
  {
    ok := r.Destroyed?;
    if ok {
      vc.vms := Removed(vc.vms, vm);
    } else if r.switchedOff {
      vc.vms := SwitchedOff(vc.vms, vm);
    }
  }

  /** FindVMByName, ValidateVMOwnership and DestroyVM in turn. */
  method DestroyByName(vc: VCenter, vmName: string, owner: Option<Key>, o: FinalizerOracle) returns (vmDeleted: bool)
    modifies vc
    ensures vc.vms == AfterDestroy(old(vc.vms), vmName, owner, o)
    ensures o.found.Some? && o.found.value.name == vmName && o.found.value in old(vc.vms) ==>
              (vmDeleted <==> Destroys(vmName, owner, o))
  {
    vmDeleted := false;
    if !o.reachable {
      return;
    }
    if o.found.None? || o.found.value.name != vmName {
      return true;
    }
    var vm := o.found.value;
    if owner.Some? {
      if !o.infoOk {
        return;
      }
      var templateOwner := GetVMTag(vm.extra);
      if templateOwner == "" || templateOwner != Owner(owner.value) {
        return;
      }
    }
    vmDeleted := DestroyVM(vc, vm, o.destroy);
  }

  method ReconcileAgentFinalizer(store: TemplateStore, vc: VCenter, a: Agent, namespace: string, o: FinalizerOracle)
    returns (released: bool)
    modifies store, vc
    ensures var k := TemplateKey(a, namespace);
            var template := if k in old(store.templates) then Some(old(store.templates)[k]) else None;
            var out := Finalize(old(vc.vms), a, namespace, template, o);
            && vc.vms == out.vms && released == out.released
            && store.templates ==
               if out.template.Some? then old(store.templates)[k := out.template.value] else old(store.templates)
  {
    hide AfterDestroy, LinkedVM, Unlinked;
    released := false;
    var k := TemplateKey(a, namespace);
    assert k in store.templates ==> store.templates == store.templates[k := store.templates[k]];
    if AgentCleanup !in a.finalizers || !a.deleting {
      return;
    }
    if ManagedBy !in a.labels {
      return o.updateOk;
    }
    if o.getFails {
      return;
    }
    if k !in store.templates {
      var vmName := Lookup(a.annotations, VMNameNote);
      if vmName != "" {
        var _ := DestroyByName(vc, vmName, None, o);
      }
    } else {
      var t := store.templates[k];
      var vmToDelete := FindLinked(t.status.vmStatus, a.name);
      if vmToDelete.None? {
        return o.updateOk;
      }
      var _ := DestroyByName(vc, vmToDelete.value, Some(k), o);
      var newVMStatus := DropLinked(t.status.vmStatus, a.name);
      if o.statusOk {
        store.templates := store.templates[
          k := t.(status := t.status.(vmStatus := newVMStatus, currentReplicas := |newVMStatus|))];
      }
    }
    released := o.updateOk;
  }

  /* ---------- whether the Agent goes ---------- */

  /**
   * A deleted Agent is let go exactly when its update succeeds, unless the template could not be read:
   * whatever the search, the ownership check and the destroy came to, and with no VM linked at all.
   */
  lemma ReleasedIff(vms: seq<VM>, a: Agent, namespace: string, template: Option<Template>, o: FinalizerOracle)
    ensures Finalize(vms, a, namespace, template, o).released <==>
            AgentCleanup in a.finalizers && a.deleting && o.updateOk && (ManagedBy !in a.labels || !o.getFails)
  {
    hide AfterDestroy, LinkedVM, Unlinked, Lookup;
  }

  /** The first entry that names the Agent is the one that is looked for. */
  lemma {:induction false} FirstLinked(vs: seq<VMStatus>, agentName: string, i: nat)
    requires i <= |vs| && (forall j :: 0 <= j < i ==> vs[j].agentName != agentName)
    requires i < |vs| ==> vs[i].agentName == agentName
    ensures LinkedVM(vs, agentName) == if i < |vs| then Some(vs[i].name) else None
  {
    if i > 0 {
      FirstLinked(vs[1..], agentName, i - 1);
    }
  }

  /** Entry by entry: the Agent's are struck off, the others stay in their places. */
  lemma {:induction false} UnlinkedConcat(a: seq<VMStatus>, b: seq<VMStatus>, agentName: string)
    ensures Unlinked(a + b, agentName) == Unlinked(a, agentName) + Unlinked(b, agentName)
  {
    if b == [] {
      assert a + b == a;
    } else {
      UnlinkedConcat(a, b[..|b| - 1], agentName);
      assert (a + b)[..|a + b| - 1] == a + b[..|b| - 1];
    }
  }

  lemma UnlinkedEach(vs: seq<VMStatus>, v: VMStatus, agentName: string)
    ensures Unlinked([], agentName) == []
    ensures Unlinked(vs + [v], agentName) == Unlinked(vs, agentName) + if v.agentName == agentName then [] else [v]
  {
    UnlinkedConcat(vs, [v], agentName);
    assert [v][..0] == [];
  }

  /** The template's status after a finalization that stored it: the Agent's entries gone, the rest counted. */
  lemma FinalizedTemplate(vms: seq<VM>, a: Agent, namespace: string, t: Template, o: FinalizerOracle)
    ensures var out := Finalize(vms, a, namespace, Some(t), o);
            var left := Unlinked(t.status.vmStatus, a.name);
            var handled := AgentCleanup in a.finalizers && a.deleting && ManagedBy in a.labels && !o.getFails;
            out.template == Some(
              if handled && o.statusOk && (exists v :: v in t.status.vmStatus && v.agentName == a.name)
              then t.(status := Status(t.status.desiredReplicas, |left|, t.status.readyReplicas, left)) else t)
  {
    LinkedIffEntry(t.status.vmStatus, a.name);
    hide AfterDestroy, LinkedVM, Unlinked, Lookup;
  }

  lemma {:induction false} LinkedIffEntry(vs: seq<VMStatus>, agentName: string)
    ensures LinkedVM(vs, agentName).Some? <==> exists v :: v in vs && v.agentName == agentName
  {
    if vs != [] {
      LinkedIffEntry(vs[1..], agentName);
      assert vs == [vs[0]] + vs[1..];
    }
  }

  /* ---------- whose VM is destroyed ---------- */

  /** The destroy call reaches the VM of that name and succeeds; with a template at hand, only if it is tagged. */
  predicate GoesThrough(vmName: string, tag: Option<string>, o: FinalizerOracle) {
    && o.reachable && o.found.Some? && o.found.value.name == vmName && o.destroy == Destroyed
    && (tag.Some? ==> o.infoOk && FirstValue(o.found.value.extra, "guestinfo.vmware-hcp.template") == tag.value)
  }

  /** With the template at hand, in the Agent's and the VM's own terms. */
  lemma FinalizeDestroysExactly(vms: seq<VM>, a: Agent, namespace: string, t: Template, o: FinalizerOracle, i: nat)
    requires AgentCleanup in a.finalizers && a.deleting && ManagedBy in a.labels && !o.getFails
    requires o.found.Some? ==> o.found.value in vms
    requires var vs := t.status.vmStatus;
             && i <= |vs| && (forall j :: 0 <= j < i ==> vs[j].agentName != a.name)
             && (i < |vs| ==> vs[i].agentName == a.name)
    ensures var out, vs := Finalize(vms, a, namespace, Some(t), o), t.status.vmStatus;
            var tag := namespace + "/" + a.labels[ManagedBy];
            && (i < |vs| && GoesThrough(vs[i].name, Some(tag), o) ==>
                  multiset(out.vms) == multiset(vms) - multiset{o.found.value} && |out.vms| == |vms| - 1)
            && (!(i < |vs| && GoesThrough(vs[i].name, Some(tag), o)) ==> |out.vms| == |vms|)
  {
    FirstLinked(t.status.vmStatus, a.name, i);
    if o.found.Some? {
      RemovedOne(vms, o.found.value);
      RemovedMultiset(vms, o.found.value);
      SwitchedIsSame(vms, o.found.value);
    }
    hide LinkedVM, Unlinked, Removed, SwitchedOff, FirstValue;
  }

  /** Without it, by the annotation. */
  lemma AnnotationDestroysExactly(vms: seq<VM>, a: Agent, namespace: string, o: FinalizerOracle)
    requires AgentCleanup in a.finalizers && a.deleting && ManagedBy in a.labels && !o.getFails
    requires o.found.Some? ==> o.found.value in vms
    ensures var out := Finalize(vms, a, namespace, None, o);
            var noted := VMNameNote in a.annotations && a.annotations[VMNameNote] != "";
            && (noted && GoesThrough(a.annotations[VMNameNote], None, o) ==>
                  multiset(out.vms) == multiset(vms) - multiset{o.found.value} && |out.vms| == |vms| - 1)
            && (!(noted && GoesThrough(a.annotations[VMNameNote], None, o)) ==> |out.vms| == |vms|)
  {
    if o.found.Some? {
      RemovedOne(vms, o.found.value);
      RemovedMultiset(vms, o.found.value);
      SwitchedIsSame(vms, o.found.value);
    }
    hide Removed, SwitchedOff, FirstValue;
  }

  /**
   * With the template at hand a VM is destroyed exactly when the status links the Agent to the name
   * that the search found, the VM carries this template's tag, and the calls succeed.
   */
  lemma FinalizeDestroysIff(vms: seq<VM>, a: Agent, namespace: string, t: Template, o: FinalizerOracle)
    requires AgentCleanup in a.finalizers && a.deleting && ManagedBy in a.labels && !o.getFails
    requires o.found.Some? ==> o.found.value in vms
    ensures var out := Finalize(vms, a, namespace, Some(t), o);
            && |vms| - 1 <= |out.vms| <= |vms|
            && (|out.vms| < |vms| <==>
                  && LinkedVM(t.status.vmStatus, a.name).Some?
                  && Destroys(LinkedVM(t.status.vmStatus, a.name).value, Some(TemplateKey(a, namespace)), o))
            && (|out.vms| < |vms| ==> out.vms == Removed(vms, o.found.value))
            && (out.vms != vms ==> TaggedFor(o.found.value, TemplateKey(a, namespace)))
  {
    hide LinkedVM, Unlinked, TaggedFor;
    if o.found.Some? {
      RemovedOne(vms, o.found.value);
      SwitchedIsSame(vms, o.found.value);
    }
  }

  /** Switching a VM off takes none out. */
  lemma {:induction false} SwitchedIsSame(vms: seq<VM>, vm: VM)
    ensures |SwitchedOff(vms, vm)| == |vms|
    ensures forall x :: x in SwitchedOff(vms, vm) ==> x in vms || (x == vm.(poweredOn := false) && vm in vms)
  {
    if vms != [] && vms[0] != vm {
      SwitchedIsSame(vms[1..], vm);
    }
  }

  /** Removing takes out one VM and keeps the others. */
  lemma {:induction false} RemovedOne(vms: seq<VM>, vm: VM)
    ensures vm !in vms ==> Removed(vms, vm) == vms
    ensures vm in vms ==> |Removed(vms, vm)| == |vms| - 1
  {
    if vms != [] && vms[0] != vm {
      RemovedOne(vms[1..], vm);
      assert vm in vms ==> vm in vms[1..];
    }
  }

  lemma {:induction false} RemovedMultiset(vms: seq<VM>, vm: VM)
    ensures multiset(Removed(vms, vm)) == multiset(vms) - multiset{vm}
  {
    if vms != [] {
      assert vms == [vms[0]] + vms[1..];
      if vms[0] != vm {
        RemovedMultiset(vms[1..], vm);
      }
    }
  }

  lemma {:induction false} RemovedIsLess(vms: seq<VM>, vm: VM)
    ensures forall x :: x in Removed(vms, vm) ==> x in vms
  {
    if vms != [] && vms[0] != vm {
      RemovedIsLess(vms[1..], vm);
    }
  }

  /** Removal thins every filtered fleet, and only a fleet that held the VM. */
  lemma {:induction false} CurrentRemoved(vms: seq<VM>, vm: VM, k: Key, spec: Spec, hidden: set<VM>)
    ensures var was, now := Current(vms, k, spec, hidden), Current(Removed(vms, vm), k, spec, hidden);
            && |now| <= |was| <= |now| + 1
            && (!OwnedBy(vm, k, spec) ==> now == was)
  {
    if vms != [] {
      assert vms == [vms[0]] + vms[1..];
      CurrentConcat([vms[0]], vms[1..], k, spec, hidden);
      assert [vms[0]][..0] == [];
      if vms[0] != vm {
        CurrentRemoved(vms[1..], vm, k, spec, hidden);
        CurrentConcat([vms[0]], Removed(vms[1..], vm), k, spec, hidden);
      }
    }
  }

  /** Switching a VM off changes no fleet's size, and only the fleet that holds the VM. */
  lemma {:induction false} CurrentSwitched(vms: seq<VM>, vm: VM, k: Key, spec: Spec)
    ensures var was, now := Owned(vms, k, spec), Owned(SwitchedOff(vms, vm), k, spec);
            |now| == |was| && (!OwnedBy(vm, k, spec) ==> now == was)
  {
    if vms != [] {
      assert vms == [vms[0]] + vms[1..];
      CurrentConcat([vms[0]], vms[1..], k, spec, {});
      assert [vms[0]][..0] == [];
      if vms[0] != vm {
        CurrentSwitched(vms[1..], vm, k, spec);
        CurrentConcat([vms[0]], SwitchedOff(vms[1..], vm), k, spec, {});
      } else {
        var off := vm.(poweredOn := false);
        assert [off][..0] == [];
        assert OwnedBy(off, k, spec) == OwnedBy(vm, k, spec);
        CurrentConcat([off], vms[1..], k, spec, {});
      }
    }
  }

  /**
   * On the template-present path no VM of another template is touched, whatever name the status held
   * and whatever VM the search by name came up with.
   */
  lemma FinalizeLeavesOthers(vms: seq<VM>, a: Agent, namespace: string, t: Template, o: FinalizerOracle,
      other: Key, otherSpec: Spec)
    requires ValidKey(TemplateKey(a, namespace)) && ValidKey(other) && TemplateKey(a, namespace) != other
    ensures Owned(Finalize(vms, a, namespace, Some(t), o).vms, other, otherSpec) == Owned(vms, other, otherSpec)
    ensures |vms| - 1 <= |Finalize(vms, a, namespace, Some(t), o).vms| <= |vms|
  {
    hide Current, LinkedVM, Unlinked, Lookup;
    var k := TemplateKey(a, namespace);
    if o.found.Some? {
      var vm := o.found.value;
      RemovedOne(vms, vm);
      SwitchedIsSame(vms, vm);
      CurrentRemoved(vms, vm, other, otherSpec, {});
      CurrentSwitched(vms, vm, other, otherSpec);
      if TaggedFor(vm, k) && TaggedFor(vm, other) { OwnerInjective(k, other); }
    }
  }

  /** Without the template, the VM destroyed is one that bears the annotated name; its tag is not read. */
  lemma AnnotationPathDestroysNamed(vms: seq<VM>, a: Agent, namespace: string, o: FinalizerOracle)
    ensures var out := Finalize(vms, a, namespace, None, o);
            && (out.vms != vms ==>
                  && o.found.Some? && o.found.value.name == Lookup(a.annotations, VMNameNote) != ""
                  && out.vms == if o.destroy.Destroyed? then Removed(vms, o.found.value)
                                else SwitchedOff(vms, o.found.value))
            && (|out.vms| < |vms| ==> o.destroy.Destroyed?)
  {
    if o.found.Some? {
      SwitchedIsSame(vms, o.found.value);
    }
  }

  /** Exactly the entries of other Agents stay. */
  lemma {:induction false} UnlinkedKeepsOthers(vs: seq<VMStatus>, agentName: string)
    ensures forall v :: v in Unlinked(vs, agentName) <==> v in vs && v.agentName != agentName
  {
    if vs != [] {
      UnlinkedKeepsOthers(vs[..|vs| - 1], agentName);
      assert vs == vs[..|vs| - 1] + [vs[|vs| - 1]];
    }
  }

  lemma {:induction false} NoEntryNoVM(vs: seq<VMStatus>, agentName: string)
    requires forall v :: v in vs ==> v.agentName != agentName
    ensures LinkedVM(vs, agentName).None?
  {
    if vs != [] {
      NoEntryNoVM(vs[1..], agentName);
    }
  }

  /**
   * A finalizer whose last update failed runs again; once the status was stored, the second run
   * destroys nothing, even if its search by name comes up with another VM of the template.
   */
  lemma FinalizeIsOnce(vms: seq<VM>, later: seq<VM>, a: Agent, namespace: string, t: Template,
      o: FinalizerOracle, again: FinalizerOracle)
    requires AgentCleanup in a.finalizers && a.deleting && ManagedBy in a.labels && !o.getFails && o.statusOk
    ensures var first := Finalize(vms, a, namespace, Some(t), o);
            && first.template.Some?
            && Finalize(later, a, namespace, first.template, again).vms == later
  {
    var left := Unlinked(t.status.vmStatus, a.name);
    UnlinkedKeepsOthers(t.status.vmStatus, a.name);
    NoEntryNoVM(left, a.name);
    hide AfterDestroy, Unlinked, LinkedVM;
  }
}
