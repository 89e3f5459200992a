/**
 * One pass over a template's VMs (controllers/vm_reconcile.go): list the owned fleet, scale up within
 * the quota, rebuild the status. A pass never deletes a VM.
 */
module Fleet {
  import opened Wrappers
  import opened GoFmt
  import opened Naming
  import opened Serial
  import opened Tags
  import opened Resources

  /* ---------- the owned fleet ---------- */

  /** The ownership filter of getCurrentVMs: in the folder, named by prefix, tagged by this template. */
  predicate OwnedBy(vm: VM, k: Key, spec: Spec) {
    && vm.folder == spec.folder
    && |Prefix(k, spec)| < |vm.name| && Prefix(k, spec) <= vm.name
    && TaggedFor(vm, k)
  }

  /** The fleet as listed when the VMs in `hidden` fail to report their info. */
  function Current(vms: seq<VM>, k: Key, spec: Spec, hidden: set<VM>): (r: seq<VM>)
    ensures |r| <= |vms|
  {
    if vms == [] then []
    else
      var vm := vms[|vms| - 1];
      Current(vms[..|vms| - 1], k, spec, hidden) + if vm !in hidden && OwnedBy(vm, k, spec) then [vm] else []
  }

  function Owned(vms: seq<VM>, k: Key, spec: Spec): seq<VM> {
    Current(vms, k, spec, {})
  }

  lemma {:induction false} CurrentConcat(a: seq<VM>, b: seq<VM>, k: Key, spec: Spec, hidden: set<VM>)
    ensures Current(a + b, k, spec, hidden) == Current(a, k, spec, hidden) + Current(b, k, spec, hidden)
  {
    hide OwnedBy;
    if b == [] {
      assert a + b == a;
    } else {
      CurrentConcat(a, b[..|b| - 1], k, spec, hidden);
      assert (a + b)[..|a + b| - 1] == a + b[..|b| - 1];
    }
  }

  lemma {:induction false} CurrentMembers(vms: seq<VM>, k: Key, spec: Spec, hidden: set<VM>)
    ensures forall vm :: vm in Current(vms, k, spec, hidden) <==> vm in vms && vm !in hidden && OwnedBy(vm, k, spec)
  {
    if vms != [] {
      CurrentMembers(vms[..|vms| - 1], k, spec, hidden);
      assert vms == vms[..|vms| - 1] + [vms[|vms| - 1]];
    }
  }

  lemma {:induction false} CurrentCount(vms: seq<VM>, k: Key, spec: Spec, hidden: set<VM>)
    ensures |Current(vms, k, spec, hidden)| <= |Owned(vms, k, spec)|
    ensures (forall vm :: vm in vms ==> OwnedBy(vm, k, spec) && vm !in hidden) ==>
              |Current(vms, k, spec, hidden)| == |vms|
  {
    if vms != [] {
      CurrentCount(vms[..|vms| - 1], k, spec, hidden);
    }
  }

  /** The agent recorded for a VM: the first entry with its UUID or its name. */
  function LinkedAgent(vs: seq<VMStatus>, vm: VM): string {
    if vs == [] then ""
    else if vs[0].uuid == vm.uuid || vs[0].name == vm.name then vs[0].agentName
    else LinkedAgent(vs[1..], vm)
  }

  function Info(vm: VM, vs: seq<VMStatus>): VMStatus {
    VMStatus(vm.name, vm.uuid, SerialNumber(vm.uuid), vm.poweredOn, LinkedAgent(vs, vm))
  }

  function Infos(vms: seq<VM>, vs: seq<VMStatus>): (r: seq<VMStatus>)
    ensures |r| == |vms|
    ensures forall i :: 0 <= i < |vms| ==> r[i] == Info(vms[i], vs)
  {
    seq(|vms|, i requires 0 <= i < |vms| => Info(vms[i], vs))
  }

  function InfoNames(infos: seq<VMStatus>): (r: seq<string>)
    ensures |r| == |infos|
    ensures forall i :: 0 <= i < |infos| ==> r[i] == infos[i].name
  {
    seq(|infos|, i requires 0 <= i < |infos| => infos[i].name)
  }

  function Names(vms: seq<VM>): (r: seq<string>)
    ensures |r| == |vms|
    ensures forall i :: 0 <= i < |vms| ==> r[i] == vms[i].name
  {
    seq(|vms|, i requires 0 <= i < |vms| => vms[i].name)
  }

  /* ---------- creating VMs ---------- */

  /**
   * How vSphere answers one creation: no VM is made; a VM is made but an error is reported, the case
   * of a failed power-on; or a VM is made and powered on. `order` is the iteration order of the
   * configuration map during the call.
   */
  datatype CreateResult =
    | Refused
    | Stranded(uuid: string, order: seq<string>)
    | Created(uuid: string, order: seq<string>)

  predicate ValidResult(r: CreateResult, k: Key, spec: Spec) {
    !r.Refused? ==> Enumerates(r.order, Tagged(spec.extraConfig, k).Keys)
  }

  predicate ValidPlan(plan: seq<CreateResult>, k: Key, spec: Spec) {
    forall i :: 0 <= i < |plan| ==> ValidResult(plan[i], k, spec)
  }

  predicate NameTaken(vms: seq<VM>, folder: string, name: string) {
    exists i :: 0 <= i < |vms| && vms[i].folder == folder && vms[i].name == name
  }

  function NewVM(k: Key, spec: Spec, name: string, uuid: string, order: seq<string>, on: bool): VM {
    VM(spec.folder, name, uuid, BuildOptions(Tagged(spec.extraConfig, k), order, spec.diskEnableUUID), on)
  }

  /** The VM one call makes, if any: vSphere refuses a name that its folder already holds. */
  function Made(vms: seq<VM>, k: Key, spec: Spec, name: string, r: CreateResult): (made: seq<VM>)
    ensures |made| <= 1
  {
    if r.Refused? || NameTaken(vms, spec.folder, name) then []
    else [NewVM(k, spec, name, r.uuid, r.order, r.Created?)]
  }

  /** Whether createVM returned no error. */
  predicate Reported(vms: seq<VM>, spec: Spec, name: string, r: CreateResult) {
    r.Created? && !NameTaken(vms, spec.folder, name)
  }

  function NamesAfter(vms: seq<VM>, spec: Spec, names: seq<string>, name: string, r: CreateResult): seq<string> {
    if Reported(vms, spec, name, r) then names + [name] else names
  }

  /** The VMs made by the creation loop; `names` is what the loop believes to be in use. */
  function Batch(vms: seq<VM>, k: Key, spec: Spec, names: seq<string>, plan: seq<CreateResult>): seq<VM>
    decreases |plan|
  {
    if plan == [] then []
    else
      var name := NextName(Prefix(k, spec), names);
      var made := Made(vms, k, spec, name, plan[0]);
      made + Batch(vms + made, k, spec, NamesAfter(vms, spec, names, name, plan[0]), plan[1..])
  }

  lemma NewVMOwned(k: Key, spec: Spec, names: seq<string>, r: CreateResult)
    requires !r.Refused? && ValidResult(r, k, spec)
    ensures OwnedBy(NewVM(k, spec, NextName(Prefix(k, spec), names), r.uuid, r.order, r.Created?), k, spec)
  {
    TagRoundTrip(spec.extraConfig, k, r.order, spec.diskEnableUUID);
  }

  /** Every VM of a batch is owned by the template, and there is at most one a planned creation. */
  lemma {:induction false} BatchOwned(vms: seq<VM>, k: Key, spec: Spec, names: seq<string>, plan: seq<CreateResult>)
    requires ValidPlan(plan, k, spec)
    ensures |Batch(vms, k, spec, names, plan)| <= |plan|
    ensures forall vm :: vm in Batch(vms, k, spec, names, plan) ==> OwnedBy(vm, k, spec)
    decreases |plan|
  {
    if plan != [] {
      var name := NextName(Prefix(k, spec), names);
      var made := Made(vms, k, spec, name, plan[0]);
      assert forall vm :: vm in made ==> OwnedBy(vm, k, spec) by {
        if made != [] { NewVMOwned(k, spec, names, plan[0]); }
      }
      hide NextName, Made, NamesAfter, OwnedBy;
      assert forall i :: 0 <= i < |plan[1..]| ==> plan[1..][i] == plan[i + 1];
      BatchOwned(vms + made, k, spec, NamesAfter(vms, spec, names, name, plan[0]), plan[1..]);
    }
  }

  /** What vSphere keeps in a folder by refusing names that are taken. */
  predicate UniqueNames(vms: seq<VM>) {
    forall i, j :: 0 <= i < j < |vms| ==> vms[i].folder != vms[j].folder || vms[i].name != vms[j].name
  }

  lemma ConcatAssociates(a: seq<VM>, b: seq<VM>, c: seq<VM>)
    ensures (a + b) + c == a + (b + c)
  {
  }

  lemma MadeKeepsNamesUnique(vms: seq<VM>, k: Key, spec: Spec, name: string, r: CreateResult)
    requires UniqueNames(vms)
    ensures UniqueNames(vms + Made(vms, k, spec, name, r))
  {
    hide BuildOptions;
    var made := Made(vms, k, spec, name, r);
    if made == [] {
      assert vms + made == vms;
    }
  }

  /** No two VMs of a folder ever share a name, so a batch's names are distinct from all others. */
  lemma {:induction false} BatchKeepsNamesUnique(
    vms: seq<VM>, k: Key, spec: Spec, names: seq<string>, plan: seq<CreateResult>)
    requires UniqueNames(vms)
    ensures UniqueNames(vms + Batch(vms, k, spec, names, plan))
    decreases |plan|
  {
    if plan == [] {
      assert vms + [] == vms;
    } else {
      var name := NextName(Prefix(k, spec), names);
      var made := Made(vms, k, spec, name, plan[0]);
      var rest := Batch(vms + made, k, spec, NamesAfter(vms, spec, names, name, plan[0]), plan[1..]);
      assert Batch(vms, k, spec, names, plan) == made + rest;
      MadeKeepsNamesUnique(vms, k, spec, name, plan[0]);
      hide NextName, Made, NamesAfter, UniqueNames;
      BatchKeepsNamesUnique(vms + made, k, spec, NamesAfter(vms, spec, names, name, plan[0]), plan[1..]);
      hide Batch;
      ConcatAssociates(vms, made, rest);
    }
  }

  /**
   * A creation that was not reported is proposed again, so once the next name is taken (by a VM that
   * was made but not powered on, or by one that is not ours) the rest of the pass creates nothing.
   */
  lemma {:induction false} BatchStalls(vms: seq<VM>, k: Key, spec: Spec, names: seq<string>, plan: seq<CreateResult>)
    requires NameTaken(vms, spec.folder, NextName(Prefix(k, spec), names))
    ensures Batch(vms, k, spec, names, plan) == []
    decreases |plan|
  {
    if plan != [] {
      hide NextName;
      assert vms + [] == vms;
      BatchStalls(vms, k, spec, names, plan[1..]);
    }
  }

  lemma StrandedStalls(vms: seq<VM>, k: Key, spec: Spec, names: seq<string>, plan: seq<CreateResult>)
    requires plan != [] && plan[0].Stranded?
    ensures |Batch(vms, k, spec, names, plan)| <= 1
  {
    var name := NextName(Prefix(k, spec), names);
    var made := Made(vms, k, spec, name, plan[0]);
    hide NextName;
    assert NameTaken(vms + made, spec.folder, name) by {
      if made != [] {
        assert (vms + made)[|vms|].name == name;
      } else {
        assert vms + made == vms;
      }
    }
    BatchStalls(vms + made, k, spec, names, plan[1..]);
  }

  /** Only the last VM may be off. */
  predicate OnButLast(batch: seq<VM>) {
    forall i :: 0 <= i < |batch| - 1 ==> batch[i].poweredOn
  }

  lemma PrependOn(made: seq<VM>, rest: seq<VM>)
    requires (forall vm :: vm in made ==> vm.poweredOn) && OnButLast(rest)
    ensures OnButLast(made + rest)
  {
  }

  /** One turn of the creation loop. */
  lemma BatchTurn(vms: seq<VM>, k: Key, spec: Spec, names: seq<string>, plan: seq<CreateResult>)
    requires plan != []
    ensures var name := NextName(Prefix(k, spec), names);
            var made := Made(vms, k, spec, name, plan[0]);
            Batch(vms, k, spec, names, plan) ==
            made + Batch(vms + made, k, spec, NamesAfter(vms, spec, names, name, plan[0]), plan[1..])
  {
  }

  /** Whatever the calls do, a VM that was not powered on is the last one its pass creates. */
  lemma {:induction false} StrandedVMEndsThePass(
    vms: seq<VM>, k: Key, spec: Spec, names: seq<string>, plan: seq<CreateResult>)
    ensures OnButLast(Batch(vms, k, spec, names, plan))
    decreases |plan|
  {
    if plan == [] || plan[0].Stranded? {
      ShortIsOn(vms, k, spec, names, plan);
    } else {
      hide *;
      var name := NextName(Prefix(k, spec), names);
      var made, names' := Made(vms, k, spec, name, plan[0]), NamesAfter(vms, spec, names, name, plan[0]);
      BatchTurn(vms, k, spec, names, plan);
      MadeIsOn(vms, k, spec, name, plan[0]);
      StrandedVMEndsThePass(vms + made, k, spec, names', plan[1..]);
      PrependOn(made, Batch(vms + made, k, spec, names', plan[1..]));
    }
    hide *;
  }

  lemma ShortIsOn(vms: seq<VM>, k: Key, spec: Spec, names: seq<string>, plan: seq<CreateResult>)
    requires plan == [] || plan[0].Stranded?
    ensures OnButLast(Batch(vms, k, spec, names, plan))
  {
    if plan != [] {
      StrandedStalls(vms, k, spec, names, plan);
      hide Batch;
    }
  }

  lemma MadeIsOn(vms: seq<VM>, k: Key, spec: Spec, name: string, r: CreateResult)
    requires !r.Stranded?
    ensures forall vm :: vm in Made(vms, k, spec, name, r) ==> vm.poweredOn
  {
    hide BuildOptions, NameTaken;
  }

  /* ---------- exactly when a batch completes ---------- */

  predicate AllCreated(plan: seq<CreateResult>) {
    forall i :: 0 <= i < |plan| ==> plan[i].Created?
  }

  /** The names of the next d free numbers. */
  function FreeNames(prefix: string, used: set<int>, d: nat): (r: seq<string>)
    ensures |r| == d
    decreases d
  {
    if d == 0 then [] else
      var k := FirstFree(used, 1);
      [VMName(prefix, k)] + FreeNames(prefix, used + {k}, d - 1)
  }

  lemma {:induction false} FreeNamesOfIndices(prefix: string, used: set<int>, d: nat)
    ensures forall i :: 0 <= i < d ==> FreeNames(prefix, used, d)[i] == VMName(prefix, FreeIndices(used, d)[i])
    decreases d
  {
    if d > 0 {
      FreeNamesOfIndices(prefix, used + {FirstFree(used, 1)}, d - 1);
      hide VMName;
    }
  }

  predicate NoneTaken(vms: seq<VM>, folder: string, names: seq<string>) {
    forall i :: 0 <= i < |names| ==> !NameTaken(vms, folder, names[i])
  }

  predicate AllBeyond(k: int, numbers: seq<int>) {
    forall i :: 0 <= i < |numbers| ==> k < numbers[i] <= MAX_INT32
  }

  /** Later numbers of a batch are greater than the first. */
  lemma LaterIndicesGreater(used: set<int>, d: nat)
    requires d > 0 && |used| + d <= MAX_INT32
    ensures var k := FirstFree(used, 1);
            InInt32(k) && AllBeyond(k, FreeIndices(used + {k}, d - 1))
  {
    var k := FirstFree(used, 1);
    var f, rest := FreeIndices(used, d), FreeIndices(used + {k}, d - 1);
    FreeIndicesAreSmallest(used, d);
    FreeIndicesBounded(used, d);
    assert f == [k] + rest;
    hide FirstFree, FreeIndices;
    forall i | 0 <= i < d - 1 ensures k < rest[i] <= MAX_INT32 {
      assert f[i + 1] == rest[i] && f[0] == k;
    }
  }

  /** Later names of a batch differ from the first. */
  lemma FirstNameNotRepeated(prefix: string, used: set<int>, d: nat)
    requires d > 0 && |used| + d <= MAX_INT32
    ensures var k := FirstFree(used, 1);
            VMName(prefix, k) !in FreeNames(prefix, used + {k}, d - 1)
  {
    hide FirstFree, FreeIndices, FreeNames, VMName;
    var k := FirstFree(used, 1);
    LaterIndicesGreater(used, d);
    FreeNamesOfIndices(prefix, used + {k}, d - 1);
    NamesApart(prefix, k, FreeIndices(used + {k}, d - 1), FreeNames(prefix, used + {k}, d - 1));
  }

  /** Names of numbers beyond k are not the name of k. */
  lemma NamesApart(prefix: string, k: int, numbers: seq<int>, names: seq<string>)
    requires InInt32(k) && |names| == |numbers|
    requires AllBeyond(k, numbers)
    requires forall i :: 0 <= i < |numbers| ==> names[i] == VMName(prefix, numbers[i])
    ensures VMName(prefix, k) !in names
  {
    hide VMName;
    forall i | 0 <= i < |names| ensures names[i] != VMName(prefix, k) {
      if names[i] == VMName(prefix, k) { VMNameInjective(prefix, k, numbers[i]); }
    }
  }

  /** Once a name is reported as created, its number is in use. */
  lemma UsedAfterName(prefix: string, names: seq<string>)
    requires |names| < MAX_INT32
    ensures UsedIndices(prefix, names + [NextName(prefix, names)]) ==
            UsedIndices(prefix, names) + {NextIndex(prefix, names)}
  {
    var k := NextIndex(prefix, names);
    NextNameIsFresh(prefix, names);
    ScanName(prefix, k, []);
    assert VMName(prefix, k) + [] == VMName(prefix, k);
    UsedIndicesAppend(prefix, names, VMName(prefix, k));
  }

  /**
   * The batch is complete exactly when no VM of the folder bore one of the names it was about to use,
   * and then it bears exactly those, in that order.
   */
  ghost predicate Complete(vms: seq<VM>, batch: seq<VM>, folder: string, free: seq<string>) {
    && (|batch| == |free| <==> NoneTaken(vms, folder, free))
    && (|batch| == |free| ==> Names(batch) == free)
  }

  /** With every call succeeding, this decides whether a batch is completed. */
  lemma {:induction false} BatchCompletesIff(
    vms: seq<VM>, k: Key, spec: Spec, names: seq<string>, plan: seq<CreateResult>)
    requires ValidPlan(plan, k, spec) && AllCreated(plan)
    requires |names| + |plan| <= MAX_INT32
    ensures Complete(vms, Batch(vms, k, spec, names, plan), spec.folder,
                     FreeNames(Prefix(k, spec), UsedIndices(Prefix(k, spec), names), |plan|))
    decreases |plan|
  {
    hide *;
    var prefix, name := Prefix(k, spec), NextName(Prefix(k, spec), names);
    if plan == [] {
      EmptyBatchComplete(vms, k, spec, names);
    } else {
      var tail := FreeNames(prefix, UsedIndices(prefix, names + [name]), |plan| - 1);
      FreeNamesStep(prefix, names, |plan|);
      PlanTail(plan, k, spec);
      if NameTaken(vms, spec.folder, name) {
        BatchStalls(vms, k, spec, names, plan);
        StalledIncomplete(vms, spec.folder, [name] + tail);
      } else {
        var vm := NewVM(k, spec, name, plan[0].uuid, plan[0].order, true);
        BatchUnfolds(vms, k, spec, names, plan);
        BatchCompletesIff(vms + [vm], k, spec, names + [name], plan[1..]);
        BatchStep(vms, vm, Batch(vms + [vm], k, spec, names + [name], plan[1..]), spec.folder, name, tail);
      }
    }
  }

  lemma EmptyBatchComplete(vms: seq<VM>, k: Key, spec: Spec, names: seq<string>)
    ensures Complete(vms, Batch(vms, k, spec, names, []), spec.folder,
                     FreeNames(Prefix(k, spec), UsedIndices(Prefix(k, spec), names), 0))
  {
  }

  lemma PlanTail(plan: seq<CreateResult>, k: Key, spec: Spec)
    requires plan != [] && ValidPlan(plan, k, spec) && AllCreated(plan)
    ensures plan[0].Created? && ValidPlan(plan[1..], k, spec) && AllCreated(plan[1..])
  {
  }

  lemma BatchUnfolds(vms: seq<VM>, k: Key, spec: Spec, names: seq<string>, plan: seq<CreateResult>)
    requires plan != [] && plan[0].Created?
    requires !NameTaken(vms, spec.folder, NextName(Prefix(k, spec), names))
    ensures var name := NextName(Prefix(k, spec), names);
            var vm := NewVM(k, spec, name, plan[0].uuid, plan[0].order, true);
            && vm.name == name && vm.folder == spec.folder
            && Batch(vms, k, spec, names, plan) == [vm] + Batch(vms + [vm], k, spec, names + [name], plan[1..])
  {
    hide NextName, BuildOptions, Prefix;
  }

  lemma FreeNamesStep(prefix: string, names: seq<string>, d: nat)
    requires d > 0 && |names| + d <= MAX_INT32
    ensures var name := NextName(prefix, names);
            var tail := FreeNames(prefix, UsedIndices(prefix, names + [name]), d - 1);
            FreeNames(prefix, UsedIndices(prefix, names), d) == [name] + tail && name !in tail
  {
    UsedIndicesBounded(prefix, names);
    UsedAfterName(prefix, names);
    FirstNameNotRepeated(prefix, UsedIndices(prefix, names), d);
    hide UsedIndices, VMName;
  }

  lemma StalledIncomplete(vms: seq<VM>, folder: string, free: seq<string>)
    requires |free| > 0 && NameTaken(vms, folder, free[0])
    ensures Complete(vms, [], folder, free)
  {
  }

  lemma BatchStep(vms: seq<VM>, vm: VM, rest: seq<VM>, folder: string, name: string, tail: seq<string>)
    requires vm.name == name && vm.folder == folder && name !in tail && !NameTaken(vms, folder, name)
    requires Complete(vms + [vm], rest, folder, tail)
    ensures Complete(vms, [vm] + rest, folder, [name] + tail)
  {
    var free := [name] + tail;
    TakenAfterAppend(vms, vm, folder, name, tail);
    hide NameTaken;
    assert NoneTaken(vms, folder, free) <==> NoneTaken(vms, folder, tail) by {
      assert forall i :: 0 <= i < |tail| ==> free[i + 1] == tail[i];
    }
    assert Names([vm] + rest) == [name] + Names(rest);
  }

  lemma TakenAfterAppend(vms: seq<VM>, vm: VM, folder: string, name: string, others: seq<string>)
    requires vm.name == name && name !in others
    ensures NoneTaken(vms + [vm], folder, others) <==> NoneTaken(vms, folder, others)
  {
    var vms' := vms + [vm];
    forall i | 0 <= i < |others|
      ensures NameTaken(vms', folder, others[i]) <==> NameTaken(vms, folder, others[i])
    {
      assert others[i] in others;
      if NameTaken(vms, folder, others[i]) {
        var j :| 0 <= j < |vms| && vms[j].folder == folder && vms[j].name == others[i];
        assert vms'[j] == vms[j];
      }
    }
  }
}
