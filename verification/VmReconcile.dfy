/**
 * reconcileVMs (controllers/vm_reconcile.go): its result as a function of what it finds and of how
 * every call it makes turns out, the method that computes it in place, and the laws of one pass.
 */
module VmReconcile {
  import opened Wrappers
  import opened GoFmt
  import opened Naming
  import opened Serial
  import opened Tags
  import opened Resources
  import opened Fleet

  /**
   * How the calls of one pass turn out: the two listings, the VMs whose info cannot be read in each,
   * the secret update, the ISO preparation, and each creation in turn (refused beyond the plan).
   */
  datatype VmOracle = VmOracle(
    listed: bool, hidden: set<VM>, secretOk: bool, isoOk: bool, plan: seq<CreateResult>,
    relisted: bool, rehidden: set<VM>)

  datatype VmOutcome = VmOutcome(vms: seq<VM>, held: set<SecretRef>, status: Status, ok: bool)

  /* ---------- how many to create ---------- */

  /** diff > 0, with the int32 subtraction of the source. */
  predicate Scaling(desired: Int32, current: nat) {
    Wrap32(desired - current) > 0
  }

  /** VMQuota.IsMaxVmsReached, a missing quota or limit being None. */
  predicate QuotaReached(current: nat, maxVms: Option<Int32>) {
    maxVms.Some? && current >= maxVms.value
  }

  function ToCreate(desired: Int32, current: nat, maxVms: Option<Int32>): (d: nat)
    requires Scaling(desired, current) && !QuotaReached(current, maxVms)
    ensures 0 < d && (current <= MAX_INT32 ==> d <= MAX_INT32)
  {
    var diff := Wrap32(desired - current);
    if maxVms.Some? && Wrap32(current + diff) > maxVms.value then maxVms.value - current else diff
  }

  /** The size a fleet is meant to reach. */
  function Target(desired: int, maxVms: Option<Int32>): int {
    if maxVms.Some? && maxVms.value < desired then maxVms.value else desired
  }

  /** The subtraction is the comparison it stands for exactly when it does not wrap. */
  lemma ScalingExact(desired: Int32, current: nat)
    requires current <= MAX_INT32
    ensures (Scaling(desired, current) <==> desired > current) <==> MIN_INT32 <= desired - current
  {
  }

  lemma ToCreateReachesTarget(desired: Int32, current: nat, maxVms: Option<Int32>)
    requires current <= MAX_INT32 && MIN_INT32 <= desired - current
    ensures Scaling(desired, current) && !QuotaReached(current, maxVms) <==> current < Target(desired, maxVms)
    ensures current < Target(desired, maxVms) ==>
              current + ToCreate(desired, current, maxVms) == Target(desired, maxVms)
  {
  }

  /** What is created stays within the quota exactly when the subtraction does not wrap. */
  lemma QuotaHoldsIff(desired: Int32, current: nat, maxVms: Int32)
    requires current <= MAX_INT32 && Scaling(desired, current) && !QuotaReached(current, Some(maxVms))
    ensures current + ToCreate(desired, current, Some(maxVms)) <= maxVms <==> MIN_INT32 <= desired - current
  {
  }

  /** A wrapped subtraction defeats the quota: the most negative request asks for 2^31 - 1 VMs. */
  lemma WrappedRequestIgnoresQuota()
    ensures Scaling(MIN_INT32, 1) && !QuotaReached(1, Some(2)) && ToCreate(MIN_INT32, 1, Some(2)) == MAX_INT32
  {
  }

  /* ---------- the pass ---------- */

  function Padded(plan: seq<CreateResult>, d: nat): (r: seq<CreateResult>)
    ensures |r| == d
    ensures forall i :: 0 <= i < d ==> r[i] == if i < |plan| then plan[i] else Refused
  {
    seq(d, i requires 0 <= i < d => if i < |plan| then plan[i] else Refused)
  }

  /** The status entry written for a VM: the agent name it was listed with is not carried over. */
  function Entry(vm: VM): VMStatus {
    VMStatus(vm.name, vm.uuid, SerialNumber(vm.uuid), vm.poweredOn, "")
  }

  function Entries(vms: seq<VM>): (r: seq<VMStatus>)
    ensures |r| == |vms|
    ensures forall i :: 0 <= i < |vms| ==> r[i] == Entry(vms[i])
  {
    seq(|vms|, i requires 0 <= i < |vms| => Entry(vms[i]))
  }

  function ReadyCount(infos: seq<VMStatus>): nat {
    if infos == [] then 0
    else ReadyCount(infos[..|infos| - 1]) + if infos[|infos| - 1].poweredOn then 1 else 0
  }

  function Rebuilt(status: Status, fleet: seq<VM>): Status {
    Status(status.desiredReplicas, |fleet|, ReadyCount(Entries(fleet)), Entries(fleet))
  }

  function HeldAfter(held: set<SecretRef>, k: Key, spec: Spec, current: nat, secretOk: bool): set<SecretRef> {
    if current == 0 && secretOk then held + {SecretOf(k, spec)} else held
  }

  function NewVMs(vms: seq<VM>, k: Key, spec: Spec, desired: Int32, o: VmOracle): seq<VM> {
    var fleet := Current(vms, k, spec, o.hidden);
    if o.listed && o.isoOk && Scaling(desired, |fleet|) && !QuotaReached(|fleet|, spec.maxVms) then
      Batch(vms, k, spec, Names(fleet), Padded(o.plan, ToCreate(desired, |fleet|, spec.maxVms)))
    else []
  }

  function VmPass(vms: seq<VM>, held: set<SecretRef>, k: Key, spec: Spec, status: Status, o: VmOracle): VmOutcome {
    if !o.listed then VmOutcome(vms, held, status, false)
    else
      var fleet := Current(vms, k, spec, o.hidden);
      var counted := status.(currentReplicas := |fleet|);
      if !Scaling(status.desiredReplicas, |fleet|) then VmOutcome(vms, held, Rebuilt(status, fleet), true)
      else if QuotaReached(|fleet|, spec.maxVms) then VmOutcome(vms, held, counted, true)
      else
        var held' := HeldAfter(held, k, spec, |fleet|, o.secretOk);
        if !o.isoOk then VmOutcome(vms, held', counted, false)
        else
          var vms' := vms + NewVMs(vms, k, spec, status.desiredReplicas, o);
          if !o.relisted then VmOutcome(vms', held', counted, false)
          else VmOutcome(vms', held', Rebuilt(status, Current(vms', k, spec, o.rehidden)), true)
  }

  /* ---------- the pass in place ---------- */

  /** One more VM of the folder listing. */
  lemma InfosStep(vms: seq<VM>, i: nat, k: Key, spec: Spec, hidden: set<VM>, vs: seq<VMStatus>)
    requires i < |vms|
    ensures Infos(Current(vms[..i + 1], k, spec, hidden), vs) ==
            Infos(Current(vms[..i], k, spec, hidden), vs) +
            if vms[i] !in hidden && OwnedBy(vms[i], k, spec) then [Info(vms[i], vs)] else []
  {
    hide OwnedBy, Info;
    assert vms[..i + 1][..i] == vms[..i];
  }

  /** getCurrentVMs: keep what the ownership checks let through, with the agent last recorded for it. */
  method GetCurrentVMs(vc: VCenter, t: TemplateObject, hidden: set<VM>) returns (result: seq<VMStatus>)
    ensures result == Infos(Current(vc.vms, t.key, t.spec, hidden), t.status.vmStatus)
  {
    var prefix := Prefix(t.key, t.spec);
    result := [];
    for i := 0 to |vc.vms|
      invariant result == Infos(Current(vc.vms[..i], t.key, t.spec, hidden), t.status.vmStatus)
    {
      InfosStep(vc.vms, i, t.key, t.spec, hidden, t.status.vmStatus);
      hide Current, Infos, Info, Prefix;
      var vm := vc.vms[i];
      if vm.folder != t.spec.folder || vm in hidden {
        continue;
      }
      if |vm.name| > |prefix| && vm.name[..|prefix|] == prefix {
        var templateOwner := GetVMTag(vm.extra);
        if templateOwner == "" || templateOwner != Owner(t.key) {
          continue;
        }
        result := result + [Info(vm, t.status.vmStatus)];
      }
    }
    assert vc.vms[..|vc.vms|] == vc.vms;
  }

  /** createVM: assemble the options, create, power on. */
  method CreateVM(vc: VCenter, t: TemplateObject, name: string, r: CreateResult) returns (ok: bool)
    requires ValidResult(r, t.key, t.spec)
    modifies vc
    ensures vc.vms == old(vc.vms) + Made(old(vc.vms), t.key, t.spec, name, r)
    ensures ok == Reported(old(vc.vms), t.spec, name, r)
  {
    if r.Refused? || NameTaken(vc.vms, t.spec.folder, name) {
      return false;
    }
    var options := CreateOptions(t.spec.extraConfig, t.key, r.order, t.spec.diskEnableUUID);
    vc.vms := vc.vms + [VM(t.spec.folder, name, r.uuid, options, r.Created?)];
    ok := r.Created?;
  }

  /** The creation loop. */
  method CreateVMs(vc: VCenter, t: TemplateObject, currentVMs: seq<VMStatus>, plan: seq<CreateResult>)
    requires ValidPlan(plan, t.key, t.spec) && Plain(Prefix(t.key, t.spec))
    requires |currentVMs| + |plan| <= 0x1_0000_0000
    modifies vc
    ensures vc.vms == old(vc.vms) + Batch(old(vc.vms), t.key, t.spec, InfoNames(currentVMs), plan)
  {
    var names := InfoNames(currentVMs);
    ghost var vms0, names0 := vc.vms, names;
    assert plan[0..] == plan;
    for i := 0 to |plan|
      invariant |names| <= |currentVMs| + i
      invariant vms0 + Batch(vms0, t.key, t.spec, names0, plan) ==
                vc.vms + Batch(vc.vms, t.key, t.spec, names, plan[i..])
    {
      ghost var vms, used := vc.vms, names;
      var vmName := GenerateNextVMName(Prefix(t.key, t.spec), names);
      var ok := CreateVM(vc, t, vmName, plan[i]);
      if ok {
        names := names + [vmName];
      }
      LoopStep(vms, t.key, t.spec, used, plan, i);
    }
    assert vc.vms + [] == vc.vms;
  }

  /** What one iteration has done and what is left is what was to be done. */
  lemma LoopStep(vms: seq<VM>, k: Key, spec: Spec, names: seq<string>, plan: seq<CreateResult>, i: nat)
    requires i < |plan|
    ensures var name := NextName(Prefix(k, spec), names);
            var vms' := vms + Made(vms, k, spec, name, plan[i]);
            vms + Batch(vms, k, spec, names, plan[i..]) ==
            vms' + Batch(vms', k, spec, NamesAfter(vms, spec, names, name, plan[i]), plan[i + 1..])
  {
    hide NextName, Made, NamesAfter, Prefix;
    var name := NextName(Prefix(k, spec), names);
    var made := Made(vms, k, spec, name, plan[i]);
    assert plan[i..][1..] == plan[i + 1..];
    ConcatAssociates(vms, made, Batch(vms + made, k, spec, NamesAfter(vms, spec, names, name, plan[i]), plan[i + 1..]));
  }

  /** The status rebuild at the end of a pass. */
  method RebuildStatus(t: TemplateObject, currentVMs: seq<VMStatus>, ghost fleet: seq<VM>)
    requires currentVMs == Infos(fleet, t.status.vmStatus)
    modifies t
    ensures t.status == Rebuilt(old(t.status), fleet)
  {
    var vmStatusList: seq<VMStatus> := [];
    var readyCount := 0;
    for i := 0 to |currentVMs|
      invariant t.status == old(t.status)
      invariant |vmStatusList| == i && vmStatusList == Entries(fleet[..i])
      invariant readyCount == ReadyCount(vmStatusList)
    {
      var vmInfo := currentVMs[i];
      if vmInfo.poweredOn {
        readyCount := readyCount + 1;
      }
      ghost var before := vmStatusList;
      vmStatusList := vmStatusList + [vmInfo.(agentName := "")];
      assert vmStatusList[..i] == before;
      assert fleet[..i + 1] == fleet[..i] + [fleet[i]];
    }
    assert fleet[..|fleet|] == fleet;
    t.status := t.status.(
      vmStatus := vmStatusList, currentReplicas := |currentVMs|, readyReplicas := readyCount);
  }

  lemma PaddedValid(plan: seq<CreateResult>, d: nat, k: Key, spec: Spec)
    requires ValidPlan(plan, k, spec)
    ensures ValidPlan(Padded(plan, d), k, spec)
  {
  }

  lemma NamesOfInfos(fleet: seq<VM>, vs: seq<VMStatus>)
    ensures InfoNames(Infos(fleet, vs)) == Names(fleet)
  {
  }

  method ReconcileVMs(t: TemplateObject, vc: VCenter, secrets: SecretStore, o: VmOracle) returns (ok: bool)
    requires ValidPlan(o.plan, t.key, t.spec) && Plain(Prefix(t.key, t.spec))
    requires |vc.vms| <= MAX_INT32
    modifies t, vc, secrets
    ensures VmOutcome(vc.vms, secrets.held, t.status, ok) ==
            VmPass(old(vc.vms), old(secrets.held), t.key, t.spec, old(t.status), o)
  {
    hide Batch, Current, Infos, Entries, ReadyCount, InfoNames, Names;
    hide Prefix, Plain, ValidPlan, Wrap32, Padded, SecretOf;
    if !o.listed {
      return false;
    }
    var desiredReplicas := t.status.desiredReplicas;
    ghost var fleet := Current(vc.vms, t.key, t.spec, o.hidden);
    var currentVMs := GetCurrentVMs(vc, t, o.hidden);
    var currentReplicas := |currentVMs|;
    t.status := t.status.(currentReplicas := currentReplicas);
    var diff: int := Wrap32(desiredReplicas - currentReplicas);
    if diff > 0 {
      if QuotaReached(currentReplicas, t.spec.maxVms) {
        return true;
      }
      if t.spec.maxVms.Some? {
        var maxVms := t.spec.maxVms.value;
        if Wrap32(currentReplicas + diff) > maxVms {
          diff := maxVms - currentReplicas;
        }
      }
      if currentReplicas == 0 {
        EnsureSecretFinalizer(secrets, SecretOf(t.key, t.spec), o.secretOk);
      }
      if !o.isoOk {
        return false;
      }
      var plan := Padded(o.plan, diff);
      PaddedValid(o.plan, diff, t.key, t.spec);
      NamesOfInfos(fleet, t.status.vmStatus);
      CreateVMs(vc, t, currentVMs, plan);
      if !o.relisted {
        return false;
      }
      fleet := Current(vc.vms, t.key, t.spec, o.rehidden);
      currentVMs := GetCurrentVMs(vc, t, o.rehidden);
    }
    RebuildStatus(t, currentVMs, fleet);
    return true;
  }

  /** ensureSecretFinalizer; an error is logged and the pass goes on. */
  method EnsureSecretFinalizer(secrets: SecretStore, secret: SecretRef, ok: bool)
    modifies secrets
    ensures secrets.held == if ok then old(secrets.held) + {secret} else old(secrets.held)
  {
    if ok && secret !in secrets.held {
      secrets.held := secrets.held + {secret};
    }
  }
}
