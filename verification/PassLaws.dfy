/** What one pass over the VMs guarantees, whatever fails: quota, convergence, non-interference. */
module PassLaws {
  import opened Wrappers
  import opened GoFmt
  import opened Naming
  import opened Tags
  import opened Resources
  import opened Fleet
  import opened VmReconcile

  function Max(a: int, b: int): int {
    if a < b then b else a
  }

  /** What a pass makes is owned by its template, and tops the listed fleet up to the target at most. */
  lemma NewVMsBounded(vms: seq<VM>, k: Key, spec: Spec, desired: Int32, o: VmOracle)
    requires ValidPlan(o.plan, k, spec)
    requires |vms| <= MAX_INT32 && MIN_INT32 <= desired - |Current(vms, k, spec, o.hidden)|
    ensures forall vm :: vm in NewVMs(vms, k, spec, desired, o) ==> OwnedBy(vm, k, spec)
    ensures |NewVMs(vms, k, spec, desired, o)| <=
            Max(0, Target(desired, spec.maxVms) - |Current(vms, k, spec, o.hidden)|)
  {
    hide Batch, Current, Wrap32, OwnedBy;
    var fleet := Current(vms, k, spec, o.hidden);
    ToCreateReachesTarget(desired, |fleet|, spec.maxVms);
    if o.listed && o.isoOk && Scaling(desired, |fleet|) && !QuotaReached(|fleet|, spec.maxVms) {
      var plan := Padded(o.plan, ToCreate(desired, |fleet|, spec.maxVms));
      PaddedValid(o.plan, |plan|, k, spec);
      BatchOwned(vms, k, spec, Names(fleet), plan);
    }
  }

  lemma PassAppends(vms: seq<VM>, held: set<SecretRef>, k: Key, spec: Spec, status: Status, o: VmOracle)
    ensures VmPass(vms, held, k, spec, status, o).vms == vms + NewVMs(vms, k, spec, status.desiredReplicas, o)
  {
    hide Batch, Current, Wrap32, Rebuilt, Padded;
    assert vms + [] == vms;
  }

  lemma {:induction false} OwnedAll(batch: seq<VM>, k: Key, spec: Spec)
    requires forall vm :: vm in batch ==> OwnedBy(vm, k, spec)
    ensures Owned(batch, k, spec) == batch
  {
    if batch != [] {
      OwnedAll(batch[..|batch| - 1], k, spec);
    }
  }

  lemma {:induction false} OwnedNone(batch: seq<VM>, k: Key, spec: Spec, hidden: set<VM>)
    requires forall vm :: vm in batch ==> !OwnedBy(vm, k, spec)
    ensures Current(batch, k, spec, hidden) == []
  {
    if batch != [] {
      OwnedNone(batch[..|batch| - 1], k, spec, hidden);
    }
  }

  lemma FleetAfterPass(vms: seq<VM>, held: set<SecretRef>, k: Key, spec: Spec, status: Status, o: VmOracle)
    requires ValidPlan(o.plan, k, spec)
    requires |vms| <= MAX_INT32 && MIN_INT32 <= status.desiredReplicas - |Current(vms, k, spec, o.hidden)|
    ensures Owned(VmPass(vms, held, k, spec, status, o).vms, k, spec) ==
            Owned(vms, k, spec) + NewVMs(vms, k, spec, status.desiredReplicas, o)
  {
    hide VmPass, NewVMs, Current, OwnedBy;
    PassAppends(vms, held, k, spec, status, o);
    var made := NewVMs(vms, k, spec, status.desiredReplicas, o);
    NewVMsBounded(vms, k, spec, status.desiredReplicas, o);
    OwnedAll(made, k, spec);
    CurrentConcat(vms, made, k, spec, {});
  }

  /**
   * Quota and replica safety, under every pattern of failures: nothing is deleted, and the fleet ends
   * no larger than it was or than the smaller of request and quota plus the VMs the listing missed.
   */
  lemma PassWithinQuota(vms: seq<VM>, held: set<SecretRef>, k: Key, spec: Spec, status: Status, o: VmOracle)
    requires ValidPlan(o.plan, k, spec)
    requires |vms| <= MAX_INT32 && MIN_INT32 <= status.desiredReplicas - |Current(vms, k, spec, o.hidden)|
    ensures var before := |Owned(vms, k, spec)|;
            var missed := before - |Current(vms, k, spec, o.hidden)|;
            var after := |Owned(VmPass(vms, held, k, spec, status, o).vms, k, spec)|;
            missed >= 0 && before <= after <= Max(before, Target(status.desiredReplicas, spec.maxVms) + missed)
  {
    hide Current, VmPass, NewVMs, Target, OwnedBy, Wrap32, ValidPlan;
    FleetAfterPass(vms, held, k, spec, status, o);
    NewVMsBounded(vms, k, spec, status.desiredReplicas, o);
    CurrentCount(vms, k, spec, o.hidden);
  }

  /** Every call succeeds: both listings are complete and vSphere refuses nothing but taken names. */
  predicate AllSucceed(o: VmOracle, d: nat) {
    && o.listed && o.hidden == {} && o.isoOk && o.relisted && o.rehidden == {}
    && d <= |o.plan| && AllCreated(o.plan)
  }

  lemma SucceedingPass(vms: seq<VM>, held: set<SecretRef>, k: Key, spec: Spec, status: Status, o: VmOracle, d: nat)
    requires ValidPlan(o.plan, k, spec)
    requires |vms| <= MAX_INT32 && MIN_INT32 <= status.desiredReplicas - |Owned(vms, k, spec)|
    requires d == Target(status.desiredReplicas, spec.maxVms) - |Owned(vms, k, spec)| && d > 0
    requires AllSucceed(o, d)
    ensures NewVMs(vms, k, spec, status.desiredReplicas, o) ==
            Batch(vms, k, spec, Names(Owned(vms, k, spec)), Padded(o.plan, d))
    ensures ValidPlan(Padded(o.plan, d), k, spec) && AllCreated(Padded(o.plan, d))
    ensures var out := VmPass(vms, held, k, spec, status, o);
            out.ok && out.status.currentReplicas == |Owned(out.vms, k, spec)|
  {
    hide Current, Wrap32, Batch;
    ToCreateReachesTarget(status.desiredReplicas, |Owned(vms, k, spec)|, spec.maxVms);
    PaddedValid(o.plan, d, k, spec);
  }

  /**
   * One pass reaches the target exactly when none of the names it needs is held in the folder by a VM
   * of someone else; the status then counts the whole fleet, and the new VMs bear the smallest free
   * numbers.
   */
  lemma PassConvergesIff(vms: seq<VM>, held: set<SecretRef>, k: Key, spec: Spec, status: Status, o: VmOracle)
    requires ValidPlan(o.plan, k, spec)
    requires |vms| <= MAX_INT32 && MIN_INT32 <= status.desiredReplicas - |Owned(vms, k, spec)|
    requires |Owned(vms, k, spec)| < Target(status.desiredReplicas, spec.maxVms)
    requires AllSucceed(o, Target(status.desiredReplicas, spec.maxVms) - |Owned(vms, k, spec)|)
    ensures var fleet, target := Owned(vms, k, spec), Target(status.desiredReplicas, spec.maxVms);
            var used := UsedIndices(Prefix(k, spec), Names(fleet));
            var numbers := FreeIndices(used, target - |fleet|);
            var free := FreeNames(Prefix(k, spec), used, target - |fleet|);
            var out := VmPass(vms, held, k, spec, status, o);
            && out.ok
            && out.status.currentReplicas == |Owned(out.vms, k, spec)|
            && (|Owned(out.vms, k, spec)| == target <==> NoneTaken(vms, spec.folder, free))
            && (|Owned(out.vms, k, spec)| == target ==> Names(Owned(out.vms, k, spec)) == Names(fleet) + free)
            && SmallestFree(used, numbers)
            && (forall i :: 0 <= i < |numbers| ==> numbers[i] <= target)
  {
    hide *;
    var fleet, target := Owned(vms, k, spec), Target(status.desiredReplicas, spec.maxVms);
    var used := UsedIndices(Prefix(k, spec), Names(fleet));
    var d := target - |fleet|;
    TargetInt32(status.desiredReplicas, spec.maxVms);
    SucceedingPass(vms, held, k, spec, status, o, d);
    OwnedWithoutHidden(vms, k, spec, o, d);
    FleetAfterPass(vms, held, k, spec, status, o);
    BatchCompletesIff(vms, k, spec, Names(fleet), Padded(o.plan, d));
    FreeIndicesAreSmallest(used, d);
    FreeIndicesBounded(used, d);
    UsedIndicesBounded(Prefix(k, spec), Names(fleet));
    var made := NewVMs(vms, k, spec, status.desiredReplicas, o);
    CompleteMeans(vms, fleet, made, spec.folder, FreeNames(Prefix(k, spec), used, d));
  }

  lemma TargetInt32(desired: Int32, maxVms: Option<Int32>)
    ensures InInt32(Target(desired, maxVms)) && Target(desired, maxVms) <= MAX_INT32
  {
  }

  lemma OwnedWithoutHidden(vms: seq<VM>, k: Key, spec: Spec, o: VmOracle, d: nat)
    requires AllSucceed(o, d)
    ensures Current(vms, k, spec, o.hidden) == Owned(vms, k, spec)
  {
    hide Current;
  }

  lemma CompleteMeans(vms: seq<VM>, fleet: seq<VM>, made: seq<VM>, folder: string, free: seq<string>)
    requires Complete(vms, made, folder, free)
    ensures |fleet + made| == |fleet| + |free| <==> NoneTaken(vms, folder, free)
    ensures |fleet + made| == |fleet| + |free| ==> Names(fleet + made) == Names(fleet) + free
  {
    assert Names(fleet + made) == Names(fleet) + Names(made);
  }

  /** At its target (or above) a fleet is left alone, whatever the calls do. */
  lemma SettledPassCreatesNothing(vms: seq<VM>, held: set<SecretRef>, k: Key, spec: Spec, status: Status, o: VmOracle)
    requires o.hidden == {}
    requires |vms| <= MAX_INT32 && MIN_INT32 <= status.desiredReplicas - |Owned(vms, k, spec)|
    requires |Owned(vms, k, spec)| >= Target(status.desiredReplicas, spec.maxVms)
    ensures VmPass(vms, held, k, spec, status, o).vms == vms
    ensures VmPass(vms, held, k, spec, status, o).held == held
  {
    ToCreateReachesTarget(status.desiredReplicas, |Owned(vms, k, spec)|, spec.maxVms);
    hide Current, Wrap32, Rebuilt, Batch;
    assert vms + [] == vms;
  }

  /**
   * Non-interference: a pass for one template, even with an equal prefix in the same folder, leaves
   * every other template's fleet as any listing would see it.
   */
  lemma PassLeavesOthers(
    vms: seq<VM>, held: set<SecretRef>, k: Key, spec: Spec, status: Status, o: VmOracle, other: Key,
    otherSpec: Spec, hidden: set<VM>)
    requires ValidPlan(o.plan, k, spec)
    requires ValidKey(k) && ValidKey(other) && k != other
    ensures Current(VmPass(vms, held, k, spec, status, o).vms, other, otherSpec, hidden) ==
            Current(vms, other, otherSpec, hidden)
    ensures forall vm :: vm in NewVMs(vms, k, spec, status.desiredReplicas, o) ==> !TaggedFor(vm, other)
  {
    hide VmPass, Wrap32, Batch, Current;
    var made := NewVMs(vms, k, spec, status.desiredReplicas, o);
    PassAppends(vms, held, k, spec, status, o);
    var fleet := Current(vms, k, spec, o.hidden);
    if made != [] {
      var plan := Padded(o.plan, ToCreate(status.desiredReplicas, |fleet|, spec.maxVms));
      PaddedValid(o.plan, |plan|, k, spec);
      BatchOwned(vms, k, spec, Names(fleet), plan);
    }
    forall vm | vm in made ensures !TaggedFor(vm, other) {
      if Owner(k) == Owner(other) { OwnerInjective(k, other); }
    }
    OwnedNone(made, other, otherSpec, hidden);
    CurrentConcat(vms, made, other, otherSpec, hidden);
  }

  /** The fleets of different templates have no VM in common. */
  lemma FleetsDisjoint(vms: seq<VM>, j: Key, k: Key, specJ: Spec, specK: Spec, hiddenJ: set<VM>, hiddenK: set<VM>)
    requires ValidKey(j) && ValidKey(k) && j != k
    ensures forall vm :: vm in Current(vms, j, specJ, hiddenJ) ==> vm !in Current(vms, k, specK, hiddenK)
  {
    CurrentMembers(vms, j, specJ, hiddenJ);
    CurrentMembers(vms, k, specK, hiddenK);
    if Owner(j) == Owner(k) { OwnerInjective(j, k); }
  }

  /** A VM that the create call reported is found by the very next complete listing of its template. */
  lemma CreatedVMIsListed(vms: seq<VM>, k: Key, spec: Spec, names: seq<string>, r: CreateResult)
    requires !r.Refused? && ValidResult(r, k, spec)
    ensures var vm := NewVM(k, spec, NextName(Prefix(k, spec), names), r.uuid, r.order, r.Created?);
            vm in Owned(vms + [vm], k, spec)
  {
    var vm := NewVM(k, spec, NextName(Prefix(k, spec), names), r.uuid, r.order, r.Created?);
    NewVMOwned(k, spec, names, r);
    CurrentMembers(vms + [vm], k, spec, {});
    hide *;
    assert vm in vms + [vm];
  }

  /** The ready count is the fleet's size exactly when every VM is on: what the Ready condition is about. */
  lemma {:induction false} ReadyMeansAllOn(infos: seq<VMStatus>)
    ensures ReadyCount(infos) <= |infos|
    ensures ReadyCount(infos) == |infos| <==> forall i :: 0 <= i < |infos| ==> infos[i].poweredOn
    ensures ReadyCount(infos) == 0 <==> forall i :: 0 <= i < |infos| ==> !infos[i].poweredOn
  {
    if infos != [] {
      var n := |infos| - 1;
      ReadyMeansAllOn(infos[..n]);
      assert forall i :: 0 <= i < n ==> infos[..n][i] == infos[i];
    }
  }
}
