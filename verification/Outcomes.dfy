/**
 * What one pass leaves behind, in the terms of what was asked for and what is there: the counts and
 * entries of the stored status, the fleet against the request, the secret.
 */
module Outcomes {
  import opened Wrappers
  import opened GoFmt
  import opened Naming
  import opened Serial
  import opened Tags
  import opened Resources
  import opened Fleet
  import opened VmReconcile
  import opened PassLaws
  import opened Agents
  import opened Lifecycle
  import opened FleetRuns

  /* ---------- reconcileVMs ---------- */

  /** The status lists the fleet, VM by VM, without agents, and counts the VMs and those that are on. */
  predicate Reports(status: Status, fleet: seq<VM>) {
    && status.currentReplicas == |fleet| == |status.vmStatus|
    && (forall i :: 0 <= i < |fleet| ==>
          && status.vmStatus[i].name == fleet[i].name && status.vmStatus[i].uuid == fleet[i].uuid
          && status.vmStatus[i].serial == SerialNumber(fleet[i].uuid)
          && status.vmStatus[i].poweredOn == fleet[i].poweredOn && status.vmStatus[i].agentName == "")
    && status.readyReplicas == |set i | 0 <= i < |fleet| && fleet[i].poweredOn|
  }

  lemma {:induction false} ReadyIsCount(infos: seq<VMStatus>)
    ensures ReadyCount(infos) == |set i | 0 <= i < |infos| && infos[i].poweredOn|
  {
    var on := set i | 0 <= i < |infos| && infos[i].poweredOn;
    if infos != [] {
      var n := |infos| - 1;
      ReadyIsCount(infos[..n]);
      var before := set i | 0 <= i < n && infos[..n][i].poweredOn;
      assert on == before + if infos[n].poweredOn then {n} else {};
    }
  }

  lemma RebuiltReports(status: Status, fleet: seq<VM>)
    ensures Reports(Rebuilt(status, fleet), fleet)
  {
    ReadyIsCount(Entries(fleet));
    hide ReadyCount, SerialNumber;
    assert (set i | 0 <= i < |Entries(fleet)| && Entries(fleet)[i].poweredOn) ==
           (set i | 0 <= i < |fleet| && fleet[i].poweredOn);
  }

  /** A request above the listed fleet, and a fleet that has reached its quota. */
  predicate Short(seen: nat, desired: Int32) {
    Wrap32(desired - seen) > 0
  }

  predicate Full(seen: nat, spec: Spec) {
    spec.maxVms.Some? && seen >= spec.maxVms.value
  }

  /** Every path of the pass: its error, its status, and whether it touches VMs or secret. */
  lemma PassOutcome(vms: seq<VM>, held: set<SecretRef>, k: Key, spec: Spec, status: Status, o: VmOracle)
    ensures var out, seen := VmPass(vms, held, k, spec, status, o), |Current(vms, k, spec, o.hidden)|;
            var short, full := Short(seen, status.desiredReplicas), Full(seen, spec);
            var creates := o.listed && short && !full;
            && out.status.desiredReplicas == status.desiredReplicas
            && (out.ok <==> o.listed && (creates ==> o.isoOk && o.relisted))
            && (!(creates && o.isoOk) ==> out.vms == vms)
            && (creates && o.isoOk ==>
                  && vms <= out.vms && |out.vms| - |vms| <= ToCreate(status.desiredReplicas, seen, spec.maxVms))
            && (!o.listed ==> out.status == status)
            && (o.listed && (!out.ok || (short && full)) ==> out.status == status.(currentReplicas := seen))
            && (out.ok && !(short && full) ==>
                  Reports(out.status, Current(out.vms, k, spec, if creates then o.rehidden else o.hidden)))
            && out.held == if creates && seen == 0 && o.secretOk then held + {SecretAt(k.namespace, spec)} else held
  {
    var out := VmPass(vms, held, k, spec, status, o);
    RebuiltReports(status, Current(vms, k, spec, o.hidden));
    RebuiltReports(status, Current(out.vms, k, spec, o.rehidden));
    PassMakes(vms, held, k, spec, status, o);
    hide Current, NewVMs, Reports, Wrap32, ToCreate, ValidPlan;
  }

  /** What the creation loop adds, and that it is not even begun without the ISO. */
  lemma PassMakes(vms: seq<VM>, held: set<SecretRef>, k: Key, spec: Spec, status: Status, o: VmOracle)
    ensures var out, seen := VmPass(vms, held, k, spec, status, o), |Current(vms, k, spec, o.hidden)|;
            var creates := o.listed && Short(seen, status.desiredReplicas) && !Full(seen, spec);
            && (!(creates && o.isoOk) ==> out.vms == vms)
            && (creates && o.isoOk ==>
                  && vms <= out.vms && |out.vms| - |vms| <= ToCreate(status.desiredReplicas, seen, spec.maxVms))
  {
    PassAppends(vms, held, k, spec, status, o);
    hide VmPass, Current, Batch, Wrap32, ToCreate, Padded;
    assert vms + [] == vms;
    var fleet := Current(vms, k, spec, o.hidden);
    if NewVMs(vms, k, spec, status.desiredReplicas, o) != [] {
      var plan := Padded(o.plan, ToCreate(status.desiredReplicas, |fleet|, spec.maxVms));
      BatchWithinPlan(vms, k, spec, Names(fleet), plan);
    }
  }

  lemma {:induction false} BatchWithinPlan(
    vms: seq<VM>, k: Key, spec: Spec, names: seq<string>, plan: seq<CreateResult>)
    ensures |Batch(vms, k, spec, names, plan)| <= |plan|
    decreases |plan|
  {
    hide NextName, Made, NamesAfter, Prefix;
    if plan != [] {
      var name := NextName(Prefix(k, spec), names);
      var made := Made(vms, k, spec, name, plan[0]);
      BatchWithinPlan(vms + made, k, spec, NamesAfter(vms, spec, names, name, plan[0]), plan[1..]);
    }
  }

  /** The credential secret, by the name in the spec or the default one, in the template's namespace. */
  function SecretAt(namespace: string, spec: Spec): SecretRef {
    SecretRef(namespace, if spec.credential == "" then "vsphere-credentials" else spec.credential)
  }

  /** A template counts as ready, as many VMs on as there are, exactly when every VM is on. */
  lemma AllReadyIff(status: Status, fleet: seq<VM>)
    requires Reports(status, fleet)
    ensures status.readyReplicas == status.currentReplicas <==> forall vm :: vm in fleet ==> vm.poweredOn
  {
    var infos := status.vmStatus;
    assert (set i | 0 <= i < |infos| && infos[i].poweredOn) == (set i | 0 <= i < |fleet| && fleet[i].poweredOn);
    ReadyIsCount(infos);
    ReadyMeansAllOn(infos);
    hide ReadyCount, SerialNumber;
    if forall i :: 0 <= i < |infos| ==> infos[i].poweredOn {
      forall vm | vm in fleet ensures vm.poweredOn {
        var i :| 0 <= i < |fleet| && fleet[i] == vm;
        assert infos[i].poweredOn;
      }
    }
    if forall vm :: vm in fleet ==> vm.poweredOn {
      forall i | 0 <= i < |infos| ensures infos[i].poweredOn {
        assert fleet[i] in fleet;
      }
    }
  }

  /* ---------- which VMs are the template's ---------- */

  /** The first value under the tag key is this one. */
  predicate HasTag(extra: seq<OptionValue>, tag: string) {
    exists i :: 0 <= i < |extra| && extra[i] == OptionValue("guestinfo.vmware-hcp.template", Some(tag))
                && forall j :: 0 <= j < i ==> extra[j].key != "guestinfo.vmware-hcp.template" || extra[j].value == None
  }

  /** In the folder, named after the prefix or else the template, and tagged with namespace and name. */
  predicate BelongsTo(vm: VM, k: Key, spec: Spec) {
    var prefix := if spec.namePrefix == "" then k.name else spec.namePrefix;
    && vm.folder == spec.folder
    && |prefix| < |vm.name| && vm.name[..|prefix|] == prefix
    && HasTag(vm.extra, k.namespace + "/" + k.name)
  }

  lemma TagReadIff(extra: seq<OptionValue>, tag: string)
    requires tag != ""
    ensures FirstValue(extra, "guestinfo.vmware-hcp.template") == tag <==> HasTag(extra, tag)
  {
    hide FirstValue;
    var key := "guestinfo.vmware-hcp.template";
    var i := FirstWith(extra, key);
    FirstValueAt(extra, key, i);
    if i < |extra| {
      assert extra[i] == OptionValue(key, extra[i].value);
    }
  }

  lemma FirstWith(extra: seq<OptionValue>, key: string) returns (i: nat)
    ensures i <= |extra| && (forall j :: 0 <= j < i ==> extra[j].key != key || extra[j].value == None)
    ensures i < |extra| ==> extra[i].key == key && extra[i].value.Some?
  {
    i := 0;
    while i < |extra| && (extra[i].key != key || extra[i].value == None)
      invariant i <= |extra| && forall j :: 0 <= j < i ==> extra[j].key != key || extra[j].value == None
    {
      i := i + 1;
    }
  }

  /** The listing: exactly the VMs that are the template's and could be read. */
  lemma ListedExactly(vms: seq<VM>, k: Key, spec: Spec, hidden: set<VM>)
    ensures forall vm :: vm in Current(vms, k, spec, hidden) <==> vm in vms && vm !in hidden && BelongsTo(vm, k, spec)
  {
    CurrentMembers(vms, k, spec, hidden);
    forall vm ensures OwnedBy(vm, k, spec) == BelongsTo(vm, k, spec) {
      TagReadIff(vm.extra, k.namespace + "/" + k.name);
      hide FirstValue, HasTag;
    }
  }

  /** The agent kept with a listed VM: that of the first entry with its UUID or its name. */
  lemma {:induction false} ListedAgent(vm: VM, vs: seq<VMStatus>, i: nat)
    requires i <= |vs| && (forall j :: 0 <= j < i ==> vs[j].uuid != vm.uuid && vs[j].name != vm.name)
    requires i < |vs| ==> vs[i].uuid == vm.uuid || vs[i].name == vm.name
    ensures Info(vm, vs) == VMStatus(vm.name, vm.uuid, SerialNumber(vm.uuid), vm.poweredOn,
                                     if i < |vs| then vs[i].agentName else "")
  {
    hide SerialNumber;
    if i > 0 {
      ListedAgent(vm, vs[1..], i - 1);
    }
  }

  /** What one creation call makes, and what it reports. */
  lemma CreationIs(vms: seq<VM>, k: Key, spec: Spec, name: string, r: CreateResult)
    ensures var taken := exists vm :: vm in vms && vm.folder == spec.folder && vm.name == name;
            if r.Refused? || taken then Made(vms, k, spec, name, r) == [] && !Reported(vms, spec, name, r)
            else
              && |Made(vms, k, spec, name, r)| == 1
              && (Reported(vms, spec, name, r) <==> r.Created?)
              && var vm := Made(vms, k, spec, name, r)[0];
              && vm.folder == spec.folder && vm.name == name && vm.uuid == r.uuid && (vm.poweredOn <==> r.Created?)
              && vm.extra == BuildOptions(Tagged(spec.extraConfig, k), r.order, spec.diskEnableUUID)
  {
    hide BuildOptions;
    if vm :| vm in vms && vm.folder == spec.folder && vm.name == name {
      var i :| 0 <= i < |vms| && vms[i] == vm;
    }
    if NameTaken(vms, spec.folder, name) {
      var i :| 0 <= i < |vms| && vms[i].folder == spec.folder && vms[i].name == name;
      assert vms[i] in vms;
    }
  }

  /* ---------- the deletion ---------- */

  /** What a deletion pass stores: a request for none, and what it listed. */
  lemma DeletedStatus(vms: seq<VM>, held: set<SecretRef>, k: Key, t: Template, o: DeleteOracle)
    requires |vms| <= MAX_INT32
    ensures var status := DeletePass(vms, held, k, t, o).stored.status;
            if !(t.finalizer && o.reachable && o.statusOk) then status == t.status
            else if !o.vm.listed then status == t.status.(desiredReplicas := 0)
            else status.desiredReplicas == 0 && Reports(status, Current(vms, k, t.spec, o.vm.hidden))
  {
    DeletingPassCreatesNothing(vms, held, k, t.spec, t.status.(desiredReplicas := 0), o.vm);
    PassOutcome(vms, held, k, t.spec, t.status.(desiredReplicas := 0), o.vm);
    NotShort(|Current(vms, k, t.spec, o.vm.hidden)|);
    hide VmPass, Current, Reports, SecretOf, SecretAt;
  }

  lemma NotShort(seen: nat)
    requires seen <= MAX_INT32
    ensures !Short(seen, 0)
  {
  }

  /* ---------- reconcileNormal ---------- */

  /** What the pass over the VMs is asked for: what the NodePool or the spec says, or what is stored. */
  function Requested(t: Template, course: Course): Int32
    requires course.Proceed?
  {
    if course.rewritten then t.status.desiredReplicas else course.desired
  }

  /** Entries with the agent names that the pass over the Agents recorded, if there was one. */
  predicate Linked(vs: seq<VMStatus>, ws: seq<VMStatus>, links: seq<string>) {
    && |ws| == |vs|
    && forall i :: 0 <= i < |vs| ==> ws[i] == if i < |links| then vs[i].(agentName := links[i]) else vs[i]
  }

  /** What a pass of a live template stores, course by course. */
  lemma NormalOutcome(w: World, k: Key, o: NormalOracle)
    requires k in w.templates && (w.templates[k].finalizer || o.finalizerOk)
    ensures var t, w' := w.templates[k], NormalPass(w, k, o);
            && k in w'.templates && w'.templates[k] == t.(finalizer := true, status := w'.templates[k].status)
            && var status := w'.templates[k].status;
            && (!o.statusOk || o.course.Unreachable? ==> status == t.status)
            && (!o.course.Proceed? ==> w'.vms == w.vms && w'.held == w.held)
            && (o.statusOk && o.course.NoNodePool? ==> status == t.status.(desiredReplicas := 0))
  {
    hide VmPass, Relinked, StartStatus;
  }

  /** The pass that goes through, in terms of what it was asked for. */
  lemma ProceedOutcome(w: World, k: Key, o: NormalOracle)
    requires k in w.templates && (w.templates[k].finalizer || o.finalizerOk) && o.course.Proceed?
    ensures var t, w' := w.templates[k], NormalPass(w, k, o);
            var out := VmPass(w.vms, w.held, k, t.spec, t.status.(desiredReplicas := Requested(t, o.course)), o.vm);
            && k in w'.templates && w'.vms == out.vms && w'.held == out.held
            && (o.statusOk ==>
                  var status := w'.templates[k].status;
                  && status == out.status.(vmStatus := status.vmStatus)
                  && Linked(out.status.vmStatus, status.vmStatus, if out.ok then o.links else [])
                  && status.desiredReplicas == Requested(t, o.course))
  {
    var t := w.templates[k];
    assert StartStatus(t, o.course) == t.status.(desiredReplicas := Requested(t, o.course));
    PassOutcome(w.vms, w.held, k, t.spec, StartStatus(t, o.course), o.vm);
    hide VmPass, Current, Reports, SecretAt, Short, Full, StartStatus, Requested;
  }

  /** A pass that fails to put the finalizer on does nothing. */
  lemma NoFinalizerNoPass(w: World, k: Key, o: NormalOracle)
    requires k in w.templates && !w.templates[k].finalizer && !o.finalizerOk
    ensures NormalPass(w, k, o) == w
  {
  }

  /** The smaller of request and quota. */
  function Wanted(d: int, maxVms: Option<Int32>): (n: int)
    ensures n <= d && (maxVms.Some? ==> n <= maxVms.value) && (n == d || maxVms == Some(n))
  {
    match maxVms
    case None => d
    case Some(m) => if m <= d then m else d
  }

  /** The request of the NodePool, and not what is stored, decides what the pass makes. */
  lemma RequestBounds(w: World, k: Key, o: NormalOracle, d: Int32)
    requires k in w.templates && o.course == Proceed(d, false) && |w.vms| <= MAX_INT32
    requires var t := w.templates[k];
             && ValidPlan(o.vm.plan, k, t.spec) && MIN_INT32 <= d - |Current(w.vms, k, t.spec, o.vm.hidden)|
    ensures var t, before := w.templates[k], |Owned(w.vms, k, w.templates[k].spec)|;
            var missed := before - |Current(w.vms, k, t.spec, o.vm.hidden)|;
            var after := |Owned(NormalPass(w, k, o).vms, k, t.spec)|;
            && missed >= 0 && before <= after
            && after <= Max(before, Wanted(d, t.spec.maxVms) + missed)
            && (before - missed >= Wanted(d, t.spec.maxVms) ==> NormalPass(w, k, o).vms == w.vms)
  {
    hide VmPass, Current, NormalPass, Reports, ValidPlan, SecretAt, Short, Full, Target, Wanted, Linked;
    var t := w.templates[k];
    var status := t.status.(desiredReplicas := d);
    CurrentCount(w.vms, k, t.spec, o.vm.hidden);
    ListedNoLonger(w.vms, k, t.spec, o.vm.hidden);
    WantedIsTarget(d, t.spec.maxVms);
    if t.finalizer || o.finalizerOk {
      ProceedOutcome(w, k, o);
      PassWithinQuota(w.vms, w.held, k, t.spec, status, o.vm);
      PassOutcome(w.vms, w.held, k, t.spec, status, o.vm);
      ShortIff(|Current(w.vms, k, t.spec, o.vm.hidden)|, d, t.spec);
    } else {
      NoFinalizerNoPass(w, k, o);
    }
  }

  lemma ListedNoLonger(vms: seq<VM>, k: Key, spec: Spec, hidden: set<VM>)
    ensures |Current(vms, k, spec, hidden)| <= |vms|
  {
  }

  lemma ShortIff(seen: nat, d: Int32, spec: Spec)
    requires seen <= MAX_INT32 && MIN_INT32 <= d - seen
    ensures Short(seen, d) && !Full(seen, spec) <==> seen < Wanted(d, spec.maxVms)
  {
  }

  /**
   * With every call succeeding, one pass brings the fleet to what the NodePool asks for, within the
   * quota, if and only if none of the names it needs is taken; with the smallest free numbers, whatever
   * status was stored.
   */
  lemma RequestIsMetIff(w: World, k: Key, o: NormalOracle, d: Int32)
    requires k in w.templates && (w.templates[k].finalizer || o.finalizerOk) && o.course == Proceed(d, false)
    requires var t := w.templates[k];
             var fleet, wanted := |Owned(w.vms, k, t.spec)|, Wanted(d, t.spec.maxVms);
             && ValidPlan(o.vm.plan, k, t.spec) && |w.vms| <= MAX_INT32 && MIN_INT32 <= d - fleet
             && fleet < wanted && AllSucceed(o.vm, wanted - fleet)
    ensures var t, w' := w.templates[k], NormalPass(w, k, o);
            var was, now, wanted := Owned(w.vms, k, t.spec), Owned(w'.vms, k, t.spec), Wanted(d, t.spec.maxVms);
            var free := FreeNames(Prefix(k, t.spec), UsedIndices(Prefix(k, t.spec), Names(was)), wanted - |was|);
            && (|now| == wanted <==> NoneTaken(w.vms, t.spec.folder, free))
            && (|now| == wanted ==> Names(now) == Names(was) + free)
            && k in w'.templates
            && (o.statusOk ==>
                  && w'.templates[k].status.desiredReplicas == d
                  && w'.templates[k].status.currentReplicas == |now|)
  {
    hide *;
    var t := w.templates[k];
    ProceedCounts(w, k, o, d);
    WantedIsTarget(d, t.spec.maxVms);
    PassConvergesIff(w.vms, w.held, k, t.spec, t.status.(desiredReplicas := d), o.vm);
  }

  lemma ProceedCounts(w: World, k: Key, o: NormalOracle, d: Int32)
    requires k in w.templates && (w.templates[k].finalizer || o.finalizerOk) && o.course == Proceed(d, false)
    ensures var t, w' := w.templates[k], NormalPass(w, k, o);
            var out := VmPass(w.vms, w.held, k, t.spec, t.status.(desiredReplicas := d), o.vm);
            && w'.vms == out.vms && k in w'.templates
            && (o.statusOk ==>
                  && w'.templates[k].status.desiredReplicas == d
                  && w'.templates[k].status.currentReplicas == out.status.currentReplicas)
  {
    ProceedOutcome(w, k, o);
    hide VmPass, NormalPass, Linked;
  }

  lemma WantedIsTarget(d: Int32, maxVms: Option<Int32>)
    ensures Wanted(d, maxVms) == Target(d, maxVms)
  {
  }
}
