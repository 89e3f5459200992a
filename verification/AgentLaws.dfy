/** What a pass over an Agent settles to, and when it settles at all. */
module AgentLaws {
  import opened Wrappers
  import opened Tags
  import opened Resources
  import opened Agents

  const ALL_OK := AgentOracle(true, true, true)

  /** The Agent a pass goes on with after its first write. */
  function Claimed(a: Agent, k: Key): Agent {
    if NeedsClaim(a, k) then Claim(a, k) else a
  }

  /**
   * After the first write the Agent is always managed by this very template, so the later test of the
   * managed-by label against another template can never fail: an Agent is taken over, not skipped.
   */
  lemma ClaimTakesOver(a: Agent, k: Key, spec: Spec)
    ensures AgentCleanup in Claimed(a, k).finalizers && Lookup(Claimed(a, k).labels, ManagedBy) == k.name
    ensures Lookup(Claimed(a, k).labels, Binding) == Lookup(a.labels, Binding)
    ensures Lookup(Claimed(a, k).labels, NodePoolName) == Lookup(a.labels, NodePoolName)
    ensures Decide(Claimed(a, k), k, spec) == Leave ==>
              !spec.testMode && spec.nodePoolRef.Some? && Lookup(a.labels, NodePoolName) != spec.nodePoolRef.value
  {
  }

  /* ---------- who is deleted ---------- */

  /** The entry is of the Agent's machine: by the vendor's UUID, or the system's if it has none, or by serial. */
  predicate IsMachine(a: Agent, v: VMStatus) {
    var uuid := if a.vendorUuid == "" then a.systemUuid else a.vendorUuid;
    (uuid != "" && v.uuid == uuid) || (a.serial != "" && v.serial == a.serial)
  }

  lemma {:induction false} KeysAreIdentifiers(vs: seq<VMStatus>, u: string)
    ensures u in ByUuid(vs) <==> u != "" && exists i :: 0 <= i < |vs| && vs[i].uuid == u
    ensures u in BySerial(vs) <==> u != "" && exists i :: 0 <= i < |vs| && vs[i].serial == u
  {
    if vs != [] {
      var n := |vs| - 1;
      KeysAreIdentifiers(vs[..n], u);
      assert forall i :: 0 <= i < n ==> vs[..n][i] == vs[i];
    }
  }

  /** An Agent matches exactly when it is the machine of some entry. */
  lemma MatchesIff(a: Agent, vs: seq<VMStatus>)
    ensures IsMatch(a, vs) <==> exists i :: 0 <= i < |vs| && IsMachine(a, vs[i])
  {
    KeysAreIdentifiers(vs, if a.vendorUuid == "" then a.systemUuid else a.vendorUuid);
    KeysAreIdentifiers(vs, a.serial);
    hide ByUuid, BySerial;
    if i :| 0 <= i < |vs| && vs[i].serial == a.serial && a.serial != "" {
      assert IsMachine(a, vs[i]);
    }
    var uuid := if a.vendorUuid == "" then a.systemUuid else a.vendorUuid;
    if i :| 0 <= i < |vs| && vs[i].uuid == uuid && uuid != "" {
      assert IsMachine(a, vs[i]);
    }
  }

  /** The entry i is the last one with the UUID, or the serial. */
  predicate LastUuid(vs: seq<VMStatus>, u: string, i: int) {
    0 <= i < |vs| && vs[i].uuid == u && forall j :: i < j < |vs| ==> vs[j].uuid != u
  }

  predicate LastSerial(vs: seq<VMStatus>, u: string, i: int) {
    0 <= i < |vs| && vs[i].serial == u && forall j :: i < j < |vs| ==> vs[j].serial != u
  }

  /** Of several entries with one identifier, the last one gives the name. */
  lemma {:induction false} UuidNames(vs: seq<VMStatus>, u: string)
    requires u != ""
    ensures u in ByUuid(vs) ==> exists i :: LastUuid(vs, u, i)
    ensures forall i :: LastUuid(vs, u, i) ==> u in ByUuid(vs) && ByUuid(vs)[u] == vs[i].name
  {
    if vs != [] {
      var n := |vs| - 1;
      UuidNames(vs[..n], u);
      assert forall j :: 0 <= j < n ==> vs[..n][j] == vs[j];
      if vs[n].uuid == u {
        assert LastUuid(vs, u, n);
      } else {
        forall i ensures LastUuid(vs, u, i) <==> LastUuid(vs[..n], u, i) {
        }
      }
    }
  }

  lemma {:induction false} SerialNames(vs: seq<VMStatus>, u: string)
    requires u != ""
    ensures u in BySerial(vs) ==> exists i :: LastSerial(vs, u, i)
    ensures forall i :: LastSerial(vs, u, i) ==> u in BySerial(vs) && BySerial(vs)[u] == vs[i].name
  {
    if vs != [] {
      var n := |vs| - 1;
      SerialNames(vs[..n], u);
      assert forall j :: 0 <= j < n ==> vs[..n][j] == vs[j];
      if vs[n].serial == u {
        assert LastSerial(vs, u, n);
      } else {
        forall i ensures LastSerial(vs, u, i) <==> LastSerial(vs[..n], u, i) {
        }
      }
    }
  }

  /** The hostname: the VM found by UUID; the one found by serial, if there is none by UUID; else its own name. */
  lemma HostnameIs(a: Agent, vs: seq<VMStatus>, i: int)
    ensures var uuid := if a.vendorUuid == "" then a.systemUuid else a.vendorUuid;
            var byUuid := uuid != "" && exists j :: LastUuid(vs, uuid, j);
            && (uuid != "" && LastUuid(vs, uuid, i) && vs[i].name != "" ==> MatchedName(a, vs) == vs[i].name)
            && (!byUuid && a.serial != "" && LastSerial(vs, a.serial, i) && vs[i].name != "" ==>
                  MatchedName(a, vs) == vs[i].name)
            && (!byUuid && (a.serial == "" || forall j :: !LastSerial(vs, a.serial, j)) ==>
                  MatchedName(a, vs) == a.name)
  {
    hide ByUuid, BySerial, LastUuid, LastSerial;
    var uuid := if a.vendorUuid == "" then a.systemUuid else a.vendorUuid;
    if uuid != "" { UuidNames(vs, uuid); }
    if a.serial != "" { SerialNames(vs, a.serial); }
  }

  /** The Agent's name goes to the first entry of its machine, and nothing else changes. */
  lemma RecordedAtFirst(vs: seq<VMStatus>, a: Agent, i: nat)
    requires i <= |vs| && (forall j :: 0 <= j < i ==> !IsMachine(a, vs[j])) && (i < |vs| ==> IsMachine(a, vs[i]))
    ensures Link(vs, a) == if i == |vs| then vs else vs[i := vs[i].(agentName := a.name)]
  {
    LinkAt(vs, a, i);
  }

  /** The Agent is on its way out of the pool that this template serves. */
  predicate LeavingPool(a: Agent, spec: Spec) {
    && (Unbinding in a.reasons || Unbound in a.reasons)
    && Lookup(a.labels, Binding) != ""
    && (spec.testMode || spec.nodePoolRef.None? || Lookup(a.labels, NodePoolName) == spec.nodePoolRef.value)
  }

  /** With every call succeeding, a matching Agent is deleted if and only if it is leaving the pool. */
  lemma DeletesIff(a: Agent, k: Key, spec: Spec, vs: seq<VMStatus>)
    requires k.name != "" && exists i :: 0 <= i < |vs| && IsMachine(a, vs[i])
    ensures var r := Process(Some(a), a, k, spec, vs, ALL_OK);
            && (r.outcome.Deletion? <==> LeavingPool(a, spec))
            && (r.outcome.Deletion? ==> r.outcome == Deletion(true) && r.stored.Some? && r.stored.value.deleting)
  {
    MatchesIff(a, vs);
    hide IsMatch, NeedsDress, MatchedName, Dressed, IsMachine;
  }

  /**
   * Scale-down, whatever the label selector: an Agent that one pass saw bound, and left with the labels
   * of that pass, is deleted by the next pass that sees it unbinding or unbound.
   */
  lemma BoundThenUnbindingIsDeleted(a: Agent, b: Agent, k: Key, spec: Spec, vs: seq<VMStatus>, later: seq<VMStatus>)
    requires k.name != "" && spec.nodePoolRef.Some? && spec.nodePoolRef.value != ""
    requires exists i :: 0 <= i < |vs| && IsMachine(a, vs[i])
    requires exists i :: 0 <= i < |later| && IsMachine(b, later[i])
    requires Bound in a.reasons && Unbinding !in a.reasons && Unbound !in a.reasons
    requires Unbinding in b.reasons || Unbound in b.reasons
    requires var r := Process(Some(a), a, k, spec, vs, ALL_OK); r.stored.Some? ==> b.labels == r.stored.value.labels
    ensures Process(Some(a), a, k, spec, vs, ALL_OK).stored.Some?
    ensures Process(Some(b), b, k, spec, later, ALL_OK).outcome == Deletion(true)
  {
    BoundIsLabelled(a, k, spec, vs);
    DeletesIff(b, k, spec, later);
    hide IsMachine, Process;
  }

  /** A bound Agent ends a pass with pool and binding label naming the pool. */
  lemma BoundIsLabelled(a: Agent, k: Key, spec: Spec, vs: seq<VMStatus>)
    requires k.name != "" && spec.nodePoolRef.Some? && spec.nodePoolRef.value != ""
    requires exists i :: 0 <= i < |vs| && IsMachine(a, vs[i])
    requires Bound in a.reasons && Unbinding !in a.reasons && Unbound !in a.reasons
    ensures var r := Process(Some(a), a, k, spec, vs, ALL_OK);
            && r.stored.Some?
            && Lookup(r.stored.value.labels, Binding) == spec.nodePoolRef.value
            && Lookup(r.stored.value.labels, NodePoolName) == spec.nodePoolRef.value
  {
    MatchesIff(a, vs);
    var c := Claimed(a, k);
    DressedLabelRead(c, spec, Binding);
    DressedLabelRead(c, spec, NodePoolName);
    NothingToDress(c, k, spec, MatchedName(a, vs));
    ClaimedDecision(a, k, spec);
    hide IsMatch, MatchedName, DressedLabels, IsMachine, NeedsDress, Decide, CleanupNotes;
  }

  /** Where nothing is to be written, the labels already read as they would. */
  lemma UnchangedReads(c: Agent, spec: Spec)
    ensures !LabelsChange(c, spec) ==> DressedLabels(c, spec) == c.labels
  {
    UnchangedLabels(c, spec);
  }

  /* ---------- labels after dressing ---------- */

  lemma UserLabelRead(labels: map<LabelKey, string>, selector: map<LabelKey, string>, key: LabelKey)
    ensures Lookup(UserLabels(labels, selector), key) == if key in selector then selector[key] else Lookup(labels, key)
  {
  }

  /** The labels an Agent ends up with, key by key. */
  lemma DressedLabelRead(a: Agent, spec: Spec, key: LabelKey)
    ensures var user := if key in spec.agentLabelSelector then spec.agentLabelSelector[key] else Lookup(a.labels, key);
            Lookup(DressedLabels(a, spec), key) ==
            if spec.nodePoolRef.None? then user
            else if key == NodePoolName then spec.nodePoolRef.value
            else if key == Binding then (if user != "" || IsBound(a) then spec.nodePoolRef.value else "")
            else user
  {
    UserLabelRead(a.labels, spec.agentLabelSelector, key);
  }

  /* ---------- what a pass leaves of an Agent ---------- */

  /** What a label reads after a full pass, from the Agent as it was. */
  function LabelAfter(a: Agent, k: Key, spec: Spec, key: LabelKey): string {
    var user := if key in spec.agentLabelSelector then spec.agentLabelSelector[key]
                else if key == ManagedBy then k.name
                else Lookup(a.labels, key);
    match spec.nodePoolRef
    case None => user
    case Some(pool) =>
      if key == NodePoolName then pool
      else if key == Binding && (user != "" || Bound in a.reasons) then pool
      else user
  }

  /** The annotations after a full pass that gave the Agent the name of a VM. */
  ghost predicate NotesAfter(was: map<AnnotationKey, string>, now: map<AnnotationKey, string>, k: Key, spec: Spec,
                             vmName: string)
  {
    && Lookup(now, VMNameNote) == vmName
    && (forall key :: key in was || key in now ==> key.UserNote? ==> key in was && key in now && was[key] == now[key])
    && if Lookup(was, VMNameNote) == vmName then now == was
       else && Lookup(now, DatacenterNote) == spec.datacenter && Lookup(now, FolderNote) == spec.folder
            && Lookup(now, CredentialNamespaceNote) == k.namespace
            && Lookup(now, CredentialSecretNote) ==
               (if spec.credential == "" then "vsphere-credentials" else spec.credential)
  }

  /** The Agent after a pass that neither deleted nor skipped it: nothing is lost, and all is set. */
  ghost predicate WrittenBack(a: Agent, d: Agent, k: Key, spec: Spec, vmName: string) {
    && d.finalizers == a.finalizers + {AgentCleanup}
    && a.labels.Keys <= d.labels.Keys && (forall key :: Lookup(d.labels, key) == LabelAfter(a, k, spec, key))
    && d.hostname == vmName && d.approved
    && NotesAfter(a.annotations, d.annotations, k, spec, vmName)
    && d == a.(finalizers := d.finalizers, labels := d.labels, hostname := d.hostname, approved := true,
               annotations := d.annotations)
  }

  lemma NotesWritten(was: map<AnnotationKey, string>, k: Key, spec: Spec, vmName: string)
    ensures var now := if Lookup(was, VMNameNote) != vmName then CleanupNotes(was, k, spec, vmName) else was;
            NotesAfter(was, now, k, spec, vmName)
  {
  }

  lemma LabelsWritten(a: Agent, k: Key, spec: Spec, key: LabelKey)
    ensures Lookup(DressedLabels(Claimed(a, k), spec), key) == LabelAfter(a, k, spec, key)
  {
    DressedLabelRead(Claimed(a, k), spec, key);
    hide DressedLabels;
  }

  lemma ClaimedIs(a: Agent, k: Key)
    ensures Claimed(a, k).finalizers == a.finalizers + {AgentCleanup}
    ensures Claimed(a, k) == a.(finalizers := a.finalizers + {AgentCleanup}, labels := Claimed(a, k).labels)
  {
    assert AgentCleanup in a.finalizers ==> a.finalizers + {AgentCleanup} == a.finalizers;
  }

  lemma DressedIsWrittenBack(a: Agent, k: Key, spec: Spec, vmName: string)
    requires vmName != ""
    ensures WrittenBack(a, Dressed(Claimed(a, k), k, spec, vmName), k, spec, vmName)
  {
    hide Claimed, DressedLabels, LabelAfter, CleanupNotes, NotesAfter;
    var d := Dressed(Claimed(a, k), k, spec, vmName);
    ClaimedIs(a, k);
    NotesWritten(a.annotations, k, spec, vmName);
    DressedKeepsKeys(a, k, spec);
    forall key ensures Lookup(d.labels, key) == LabelAfter(a, k, spec, key) {
      LabelsWritten(a, k, spec, key);
    }
  }

  lemma DressedKeepsKeys(a: Agent, k: Key, spec: Spec)
    ensures a.labels.Keys <= DressedLabels(Claimed(a, k), spec).Keys
  {
    forall key | key in a.labels ensures key in DressedLabels(Claimed(a, k), spec) {
      assert key in UserLabels(Claimed(a, k).labels, spec.agentLabelSelector);
    }
  }

  /**
   * With every call succeeding, a matching Agent that is not leaving the pool is written back in full, or
   * was so already; unless it is leaving another pool, and then only claimed.
   */
  lemma PassWritesBack(a: Agent, k: Key, spec: Spec, vs: seq<VMStatus>)
    requires k.name != "" && a.name != "" && exists i :: 0 <= i < |vs| && IsMachine(a, vs[i])
    requires !LeavingPool(a, spec)
    ensures var r := Process(Some(a), a, k, spec, vs, ALL_OK);
            && r.stored.Some?
            && if (Unbinding in a.reasons || Unbound in a.reasons) && Lookup(a.labels, Binding) != "" then
                 r.outcome == LeftAlone && r.stored.value == Claimed(a, k)
               else r.outcome in {Written, Steady} && WrittenBack(a, r.stored.value, k, spec, MatchedName(a, vs))
  {
    MatchesIff(a, vs);
    var c, vmName := Claimed(a, k), MatchedName(a, vs);
    assert vmName != "";
    DressedIsWrittenBack(a, k, spec, vmName);
    NothingToDress(c, k, spec, vmName);
    ClaimedDecision(a, k, spec);
    hide IsMatch, MatchedName, IsMachine, WrittenBack, Dressed, NeedsDress, Decide;
  }

  lemma NothingToDress(c: Agent, k: Key, spec: Spec, vmName: string)
    ensures !NeedsDress(c, spec, vmName) ==> Dressed(c, k, spec, vmName) == c
  {
    UnchangedReads(c, spec);
    hide LabelsChange, DressedLabels, CleanupNotes;
  }

  lemma ClaimedDecision(a: Agent, k: Key, spec: Spec)
    requires k.name != ""
    ensures Decide(Claimed(a, k), k, spec) ==
            if LeavingPool(a, spec) then Delete
            else if (Unbinding in a.reasons || Unbound in a.reasons) && Lookup(a.labels, Binding) != "" then Leave
            else Dress
  {
    ClaimTakesOver(a, k, spec);
  }

  /** A call that fails, or is refused because the copy is stale, changes nothing; no later call is made then. */
  lemma FailuresChangeNothing(p: Option<Agent>, a: Agent, k: Key, spec: Spec, vs: seq<VMStatus>, o: AgentOracle)
    ensures var r, claim := Process(p, a, k, spec, vs, o), NeedsClaim(a, k);
            var base := if claim then Some(Claim(a, k)) else p;
            match r.outcome
            case NoMatch => r.stored == p && !r.claimSent && !r.dressSent
            case ClaimFailed => r.stored == p && claim && !(o.claimOk && p == Some(a)) && r.claimSent && !r.dressSent
            case Deletion(done) =>
              && (claim ==> o.claimOk && p == Some(a)) && done == o.deleteOk && r.claimSent == claim && !r.dressSent
              && (!done ==> r.stored == base)
              && (done ==> r.stored == if base.None? || base.value.finalizers == {} then None
                                       else Some(base.value.(deleting := true)))
            case LeftAlone => (claim ==> o.claimOk && p == Some(a)) && r.stored == base && !r.dressSent
            case Steady => (claim ==> o.claimOk && p == Some(a)) && r.stored == base && !r.dressSent
            case DressFailed =>
              && (claim ==> o.claimOk && p == Some(a)) && r.stored == base && r.dressSent
              && !(o.dressOk && base == Some(Claimed(a, k)))
            case Written => (claim ==> o.claimOk) && p == Some(a) && o.dressOk && r.dressSent
  {
    hide IsMatch, MatchedName, Dressed, NeedsDress, Decide;
  }

  /* ---------- the fixpoint ---------- */

  /** The selector does not fight the controller over its own labels. */
  predicate Settled(k: Key, spec: Spec) {
    var selector := spec.agentLabelSelector;
    && (ManagedBy in selector ==> selector[ManagedBy] == k.name)
    && (spec.nodePoolRef.Some? ==>
          && spec.nodePoolRef.value != ""
          && (NodePoolName in selector ==> selector[NodePoolName] == spec.nodePoolRef.value)
          && (Binding in selector ==> selector[Binding] == spec.nodePoolRef.value))
  }

  /** After a pass without failures that does not delete the Agent, the next pass sends no update. */
  predicate Quiet(a: Agent, k: Key, spec: Spec, vs: seq<VMStatus>) {
    var first := Process(Some(a), a, k, spec, vs, ALL_OK);
    IsMatch(a, vs) && first.stored.Some? && !first.outcome.Deletion? ==>
      var second := Process(first.stored, first.stored.value, k, spec, vs, ALL_OK);
      !second.claimSent && !second.dressSent
  }

  /** Passes that get to the Agents at all are quiet from the second on. */
  ghost predicate AlwaysQuiet(k: Key, spec: Spec) {
    Reconciles(spec) ==> forall a, vs :: Quiet(a, k, spec, vs)
  }

  lemma DressedNeedsNothing(c: Agent, k: Key, spec: Spec, vmName: string)
    requires Settled(k, spec)
    requires AgentCleanup in c.finalizers && Lookup(c.labels, ManagedBy) == k.name
    ensures !NeedsClaim(Dressed(c, k, spec, vmName), k)
    ensures !NeedsDress(Dressed(c, k, spec, vmName), spec, vmName)
  {
    var d := Dressed(c, k, spec, vmName);
    forall key ensures key in spec.agentLabelSelector ==> Lookup(d.labels, key) == spec.agentLabelSelector[key] {
      DressedLabelRead(c, spec, key);
    }
    DressedLabelRead(c, spec, ManagedBy);
    DressedLabelRead(c, spec, NodePoolName);
    DressedLabelRead(c, spec, Binding);
    hide DressedLabels;
    assert UserLabels(d.labels, spec.agentLabelSelector) == d.labels;
  }

  lemma SecondPassIsQuiet(a: Agent, k: Key, spec: Spec, vs: seq<VMStatus>)
    requires Settled(k, spec)
    ensures Quiet(a, k, spec, vs)
  {
    hide Settled, IsMatch, Decide, NeedsDress, Dressed, MatchedName, MarkDeleted;
    var c, vmName := Claimed(a, k), MatchedName(a, vs);
    ClaimTakesOver(a, k, spec);
    SameIdentity(a, k, spec, vmName, vs);
    DressedNeedsNothing(c, k, spec, vmName);
  }

  /** Neither write touches what an Agent is matched by. */
  lemma SameIdentity(a: Agent, k: Key, spec: Spec, vmName: string, vs: seq<VMStatus>)
    ensures var c := Claimed(a, k);
            var d := Dressed(c, k, spec, vmName);
            && IsMatch(c, vs) == IsMatch(a, vs) && IsMatch(d, vs) == IsMatch(a, vs)
            && MatchedName(c, vs) == MatchedName(a, vs) && MatchedName(d, vs) == MatchedName(a, vs)
  {
    hide ByUuid, BySerial, DressedLabels, CleanupNotes;
  }

  /** An Agent on which every selector that is not settled keeps being rewritten. */
  const RESTLESS := Agent(0, "agent", {}, map[], map[], "", false, [Bound], "u", "", "", false)
  const ONE_VM := [VMStatus("vm", "u", "", true, "")]

  lemma RestlessFirstPass(k: Key, spec: Spec)
    ensures IsMatch(RESTLESS, ONE_VM)
    ensures Process(Some(RESTLESS), RESTLESS, k, spec, ONE_VM, ALL_OK) ==
            Processed(Some(Dressed(Claim(RESTLESS, k), k, spec, MatchedName(RESTLESS, ONE_VM))), Written, true, true)
  {
    assert ONE_VM[..0] == [];
    assert "u" in ByUuid(ONE_VM);
    hide DressedLabels, LabelsChange, CleanupNotes;
    assert MatchedName(RESTLESS, ONE_VM) == "vm";
    assert !IsUnbindingOrUnbound(Claim(RESTLESS, k));
  }

  lemma UnsettledIsRestless(k: Key, spec: Spec)
    requires !Settled(k, spec)
    ensures !Quiet(RESTLESS, k, spec, ONE_VM)
  {
    var c, vmName := Claim(RESTLESS, k), MatchedName(RESTLESS, ONE_VM);
    var d := Dressed(c, k, spec, vmName);
    RestlessFirstPass(k, spec);
    SameIdentity(RESTLESS, k, spec, vmName, ONE_VM);
    DressedLabelRead(c, spec, ManagedBy);
    DressedLabelRead(c, spec, NodePoolName);
    DressedLabelRead(c, spec, Binding);
    assert !IsUnbindingOrUnbound(d);
    hide DressedLabels, IsMatch, MatchedName, Claim;
    var selector := spec.agentLabelSelector;
    if ManagedBy in selector && selector[ManagedBy] != k.name {
      assert NeedsClaim(d, k);
    } else {
      UnsettledPoolLabels(d, spec);
    }
  }

  /** The three ways a pool can be fought over, on a bound Agent. */
  lemma UnsettledPoolLabels(d: Agent, spec: Spec)
    requires spec.nodePoolRef.Some? && IsBound(d)
    requires var selector, pool := spec.agentLabelSelector, spec.nodePoolRef.value;
             || pool == ""
             || (NodePoolName in selector && selector[NodePoolName] != pool)
             || (Binding in selector && selector[Binding] != pool)
    requires Lookup(d.labels, NodePoolName) == spec.nodePoolRef.value
    requires Lookup(d.labels, Binding) == spec.nodePoolRef.value
    ensures LabelsChange(d, spec)
  {
    var selector, pool := spec.agentLabelSelector, spec.nodePoolRef.value;
    UserLabelRead(d.labels, selector, Binding);
    UserLabelRead(d.labels, selector, NodePoolName);
    if !UserLabelsChange(d.labels, selector) {
      assert NodePoolName in selector ==> Lookup(d.labels, NodePoolName) == selector[NodePoolName];
      assert Binding in selector ==> Lookup(d.labels, Binding) == selector[Binding];
    }
  }

  /** Write-back is a fixpoint for every Agent exactly when the selector is settled, or no pass gets there. */
  lemma FixpointIff(k: Key, spec: Spec)
    ensures AlwaysQuiet(k, spec) <==> Settled(k, spec) || !Reconciles(spec)
  {
    if Settled(k, spec) {
      forall a, vs ensures Quiet(a, k, spec, vs) {
        SecondPassIsQuiet(a, k, spec, vs);
      }
    } else {
      UnsettledIsRestless(k, spec);
    }
  }

  /** The user's selector does not set the binding label to something. */
  predicate LeavesBinding(spec: Spec) {
    Binding in spec.agentLabelSelector ==> spec.agentLabelSelector[Binding] == "" || spec.nodePoolRef == Some("")
  }

  const NEVER_BOUND := Agent(1, "agent", {}, map[], map[], "", false, [Unbound], "u", "", "", false)

  /** What two passes make of a new, unbound Agent when the selector sets the binding label. */
  lemma NeverBoundIsDeleted(k: Key, spec: Spec)
    requires !LeavesBinding(spec) && k.name != ""
    ensures var a := NEVER_BOUND;
            var d := Dressed(Claim(a, k), k, spec, "vm");
            && Process(Some(a), a, k, spec, ONE_VM, ALL_OK) == Processed(Some(d), Written, true, true)
            && Process(Some(d), d, k, spec, ONE_VM, ALL_OK).outcome == Deletion(true)
  {
    var a, c := NEVER_BOUND, Claim(NEVER_BOUND, k);
    var d := Dressed(c, k, spec, "vm");
    assert ONE_VM[..0] == [];
    assert "u" in ByUuid(ONE_VM);
    assert MatchedName(a, ONE_VM) == "vm";
    SameIdentity(a, k, spec, "vm", ONE_VM);
    DressedLabelRead(c, spec, Binding);
    DressedLabelRead(c, spec, NodePoolName);
    ClaimTakesOver(d, k, spec);
    hide ByUuid, BySerial, MatchedName, DressedLabels, LabelsChange, CleanupNotes;
    assert Decide(c, k, spec) == Dress;
    assert Decide(Claimed(d, k), k, spec) == Delete;
  }

  /** A pass over an Agent that is not both bound and unbinding does not prepare its deletion by the next. */
  predicate Spares(a: Agent, k: Key, spec: Spec, vs: seq<VMStatus>) {
    var first := Process(Some(a), a, k, spec, vs, ALL_OK);
    !(IsBound(a) && IsUnbindingOrUnbound(a)) && first.stored.Some? && !first.outcome.Deletion? ==>
      !Process(first.stored, first.stored.value, k, spec, vs, ALL_OK).outcome.Deletion?
  }

  lemma SecondPassDoesNotDelete(a: Agent, k: Key, spec: Spec, vs: seq<VMStatus>)
    requires LeavesBinding(spec)
    ensures Spares(a, k, spec, vs)
  {
    hide IsMatch, NeedsDress, MatchedName, DressedLabels, CleanupNotes;
    var c, vmName := Claimed(a, k), MatchedName(a, vs);
    var d := Dressed(c, k, spec, vmName);
    ClaimTakesOver(a, k, spec);
    ClaimTakesOver(d, k, spec);
    SameIdentity(a, k, spec, vmName, vs);
    DressedLabelRead(c, spec, Binding);
  }

  /** That holds of every Agent exactly when the selector leaves the binding label alone. */
  lemma SecondPassSparesIff(k: Key, spec: Spec)
    requires k.name != ""
    ensures (forall a, vs :: Spares(a, k, spec, vs)) <==> LeavesBinding(spec)
  {
    if LeavesBinding(spec) {
      forall a, vs ensures Spares(a, k, spec, vs) {
        SecondPassDoesNotDelete(a, k, spec, vs);
      }
    } else {
      NeverBoundIsDeleted(k, spec);
      assert !Spares(NEVER_BOUND, k, spec, ONE_VM);
    }
  }

  /**
   * A deleted Agent does not go: whatever finalizers it had, it stays, marked for deletion and with the
   * cleanup finalizer, until that finalizer has been handled.
   */
  lemma DeletionAwaitsFinalizer(p: Option<Agent>, a: Agent, k: Key, spec: Spec, vs: seq<VMStatus>, o: AgentOracle)
    requires p.Some? && (AgentCleanup in a.finalizers ==> AgentCleanup in p.value.finalizers)
    requires Process(p, a, k, spec, vs, o).outcome == Deletion(true)
    ensures var after := Process(p, a, k, spec, vs, o).stored;
            after.Some? && after.value.deleting && AgentCleanup in after.value.finalizers
  {
    hide IsMatch, NeedsDress, MatchedName, Dressed;
  }
}
