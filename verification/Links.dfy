/**
 * The link from an Agent to its VM, which the Agent finalizer goes by. reconcileVMs rebuilds the status
 * without agent names, unless the quota stops it first, and only a second write of the following Agent
 * pass records one. So an Agent that the pass deletes is linked afterwards exactly when the quota
 * stopped the pass, the status linked the Agent before, and no other Agent took over the entry; or if the
 * status of the pass was not stored, and the link from before stands.
 */
module Links {
  import opened Wrappers
  import opened Tags
  import opened Resources
  import opened Fleet
  import opened VmReconcile
  import opened PassLaws
  import opened Agents
  import opened Lifecycle
  import Serial
  import Matching

  ghost predicate Linked(vs: seq<VMStatus>, agentName: string) {
    exists i :: 0 <= i < |vs| && vs[i].agentName == agentName
  }

  predicate NoLinks(vs: seq<VMStatus>) {
    forall i :: 0 <= i < |vs| ==> vs[i].agentName == ""
  }

  /** The pass got as far as rebuilding the VM status. */
  predicate Rebuilds(vms: seq<VM>, k: Key, spec: Spec, status: Status, o: VmOracle) {
    var current := |Current(vms, k, spec, o.hidden)|;
    && o.listed
    && (Scaling(status.desiredReplicas, current) ==> !QuotaReached(current, spec.maxVms) && o.isoOk && o.relisted)
  }

  /** The pass ends early, without an error, because the quota is reached: the status keeps its entries. */
  predicate QuotaStops(vms: seq<VM>, k: Key, spec: Spec, status: Status, o: VmOracle) {
    var current := |Current(vms, k, spec, o.hidden)|;
    o.listed && Scaling(status.desiredReplicas, current) && QuotaReached(current, spec.maxVms)
  }

  /** A pass without an error either rebuilds the status or was stopped by the quota. */
  lemma OkPassLinks(vms: seq<VM>, held: set<SecretRef>, k: Key, spec: Spec, status: Status, o: VmOracle)
    requires VmPass(vms, held, k, spec, status, o).ok
    ensures var vs := VmPass(vms, held, k, spec, status, o).status.vmStatus;
            if QuotaStops(vms, k, spec, status, o) then vs == status.vmStatus
            else Rebuilds(vms, k, spec, status, o) && NoLinks(vs)
  {
    hide Current, NewVMs, HeldAfter, ReadyCount;
  }

  /** No two of the listed Agents share a name. */
  predicate NamesDistinct(listed: seq<Agent>) {
    forall i, j :: 0 <= i < j < |listed| ==> listed[i].name != listed[j].name
  }

  /** Links aside, the entries stay what they were. */
  predicate SameEntries(vs: seq<VMStatus>, ws: seq<VMStatus>) {
    |vs| == |ws| && forall i :: 0 <= i < |vs| ==> ws[i] == vs[i].(agentName := ws[i].agentName)
  }

  /** The entry that a link for the Agent would be put on. */
  predicate FirstEntry(vs: seq<VMStatus>, a: Agent, i: int) {
    0 <= i < |vs| && SameMachine(a, vs[i]) && forall j :: 0 <= j < i ==> !SameMachine(a, vs[j])
  }

  lemma {:induction false} ByUuidFound(vs: seq<VMStatus>, u: string)
    ensures u in ByUuid(vs) ==> exists i :: 0 <= i < |vs| && vs[i].uuid == u
    ensures u in BySerial(vs) ==> exists i :: 0 <= i < |vs| && vs[i].serial == u
  {
    if vs != [] {
      ByUuidFound(vs[..|vs| - 1], u);
      assert forall i :: 0 <= i < |vs| - 1 ==> vs[..|vs| - 1][i] == vs[i];
    }
  }

  /** A matching Agent has a first entry. */
  lemma MatchHasEntry(a: Agent, vs: seq<VMStatus>) returns (i: nat)
    requires IsMatch(a, vs)
    ensures FirstEntry(vs, a, i)
  {
    ByUuidFound(vs, AgentUuid(a));
    ByUuidFound(vs, a.serial);
    var m :| 0 <= m < |vs| && SameMachine(a, vs[m]);
    i := 0;
    while !SameMachine(a, vs[i])
      invariant i <= m && forall j :: 0 <= j < i ==> !SameMachine(a, vs[j])
      decreases m - i
    {
      i := i + 1;
    }
  }

  /** The j-th listed Agent was rewritten, and v is its entry. */
  predicate Claims(listed: seq<Agent>, written: seq<bool>, vs: seq<VMStatus>, j: int, v: int)
    requires |written| == |listed|
  {
    0 <= j < |listed| && written[j] && FirstEntry(vs, listed[j], v)
  }

  /** No rewritten Agent has its entry at v, from the j-th on. */
  predicate Unclaimed(listed: seq<Agent>, written: seq<bool>, vs: seq<VMStatus>, v: int, j: int)
    requires |written| == |listed|
  {
    forall i :: j <= i < |listed| ==> !Claims(listed, written, vs, i, v)
  }

  /** The name at an entry is that of the last rewritten Agent with its entry there, else what it was. */
  ghost predicate NameIs(listed: seq<Agent>, written: seq<bool>, vs: seq<VMStatus>, v: int, name: string)
    requires |written| == |listed| && 0 <= v < |vs|
  {
    || (name == vs[v].agentName && Unclaimed(listed, written, vs, v, 0))
    || (exists j :: Claims(listed, written, vs, j, v) && name == listed[j].name
                    && Unclaimed(listed, written, vs, v, j + 1))
  }

  ghost predicate LinksAre(listed: seq<Agent>, vs: seq<VMStatus>, ws: seq<VMStatus>, written: seq<bool>) {
    && |written| == |listed| && SameEntries(vs, ws)
    && (forall v :: 0 <= v < |vs| ==> NameIs(listed, written, vs, v, ws[v].agentName))
  }

  lemma ClaimsOneMore(listed: seq<Agent>, a: Agent, written: seq<bool>, flag: bool, vs: seq<VMStatus>, j: int, v: int)
    requires |written| == |listed|
    ensures Claims(listed + [a], written + [flag], vs, j, v) <==>
            Claims(listed, written, vs, j, v) || (j == |listed| && flag && FirstEntry(vs, a, v))
  {
    hide FirstEntry;
  }

  /** One more Agent: it is rewritten and has its entry at v, or the name at v stands. */
  lemma NameOneMore(
    listed: seq<Agent>, a: Agent, written: seq<bool>, flag: bool, vs: seq<VMStatus>, v: int, name: string)
    requires |written| == |listed| && 0 <= v < |vs| && NameIs(listed, written, vs, v, name)
    ensures NameIs(listed + [a], written + [flag], vs, v, if flag && FirstEntry(vs, a, v) then a.name else name)
  {
    var all, flags := listed + [a], written + [flag];
    forall j ensures Claims(all, flags, vs, j, v) <==>
                     Claims(listed, written, vs, j, v) || (j == |listed| && flag && FirstEntry(vs, a, v)) {
      ClaimsOneMore(listed, a, written, flag, vs, j, v);
    }
    assert forall j :: 0 <= j < |listed| ==> all[j] == listed[j];
    hide FirstEntry, Claims;
    if flag && FirstEntry(vs, a, v) {
      assert Claims(all, flags, vs, |listed|, v) && all[|listed|] == a;
    } else if j :| Claims(listed, written, vs, j, v) && name == listed[j].name
                   && Unclaimed(listed, written, vs, v, j + 1) {
      ClaimInRange(listed, written, vs, j, v);
      assert Claims(all, flags, vs, j, v) && all[j].name == name;
    }
  }

  lemma ClaimInRange(listed: seq<Agent>, written: seq<bool>, vs: seq<VMStatus>, j: int, v: int)
    requires |written| == |listed| && Claims(listed, written, vs, j, v)
    ensures 0 <= j < |listed| && 0 <= v < |vs| && written[j]
  {
  }

  lemma FirstEntrySame(vs: seq<VMStatus>, ws: seq<VMStatus>, a: Agent, i: int)
    requires SameEntries(vs, ws)
    ensures FirstEntry(ws, a, i) == FirstEntry(vs, a, i)
  {
    assert forall j :: 0 <= j < |vs| ==> SameMachine(a, ws[j]) == SameMachine(a, vs[j]);
  }

  /** The effect on the links of an Agent that was rewritten, and of one that was not. */
  lemma LinksOneMore(listed: seq<Agent>, a: Agent, vs: seq<VMStatus>, ws: seq<VMStatus>, written: seq<bool>, flag: bool)
    requires LinksAre(listed, vs, ws, written) && (flag ==> IsMatch(a, vs))
    ensures LinksAre(listed + [a], vs, if flag then Link(ws, a) else ws, written + [flag])
  {
    var ws' := if flag then Link(ws, a) else ws;
    if flag {
      var i := MatchHasEntry(a, vs);
      FirstEntrySame(vs, ws, a, i);
      LinkAt(ws, a, i);
      assert ws' == ws[i := ws[i].(agentName := a.name)];
      assert forall v :: FirstEntry(vs, a, v) <==> v == i;
    }
    hide Link, IsMatch, FirstEntry, SameMachine, NameIs;
    forall v | 0 <= v < |vs| ensures NameIs(listed + [a], written + [flag], vs, v, ws'[v].agentName) {
      NameOneMore(listed, a, written, flag, vs, v, ws[v].agentName);
    }
  }

  function WrittenFlags(agents: map<string, Agent>, listed: seq<Agent>, k: Key, spec: Spec, vs: seq<VMStatus>,
      os: seq<AgentOracle>): (r: seq<bool>)
    ensures |r| == |listed|
  {
    seq(|listed|, j requires 0 <= j < |listed| => OutcomeOf(agents, listed, k, spec, vs, os, j).Written?)
  }

  lemma WrittenFlagsStep(agents: map<string, Agent>, listed: seq<Agent>, k: Key, spec: Spec, vs: seq<VMStatus>,
      os: seq<AgentOracle>)
    requires listed != []
    ensures var n := |listed| - 1;
            WrittenFlags(agents, listed, k, spec, vs, os) ==
            WrittenFlags(agents, listed[..n], k, spec, vs, os) +
            [OutcomeOf(agents, listed, k, spec, vs, os, n).Written?]
  {
    var n := |listed| - 1;
    hide AgentsPass, Process;
    forall j | 0 <= j < n
      ensures OutcomeOf(agents, listed, k, spec, vs, os, j) == OutcomeOf(agents, listed[..n], k, spec, vs, os, j)
    {
      assert listed[..n][..j] == listed[..j];
    }
  }

  lemma WrittenMatches(p: Option<Agent>, a: Agent, k: Key, spec: Spec, vs: seq<VMStatus>, o: AgentOracle)
    requires Process(p, a, k, spec, vs, o).outcome.Written?
    ensures IsMatch(a, vs)
  {
  }

  /** The links after a pass over any status. */
  lemma {:induction false} PassLinks(agents: map<string, Agent>, listed: seq<Agent>, k: Key, spec: Spec,
                                     vs: seq<VMStatus>, os: seq<AgentOracle>)
    ensures LinksAre(listed, vs, AgentsPass(agents, listed, k, spec, vs, os).vmStatus,
                     WrittenFlags(agents, listed, k, spec, vs, os))
  {
    if listed != [] {
      var n := |listed| - 1;
      var init, a := listed[..n], listed[n];
      assert listed == init + [a];
      PassLinks(agents, init, k, spec, vs, os);
      WrittenFlagsStep(agents, listed, k, spec, vs, os);
      var before := AgentsPass(agents, init, k, spec, vs, os);
      var p, o := Stored(before.agents, a.name), OracleAt(os, n);
      var flag := Process(p, a, k, spec, vs, o).outcome.Written?;
      hide LinksAre, WrittenFlags, Process, Link, IsMatch;
      if flag { WrittenMatches(p, a, k, spec, vs, o); }
      LinksOneMore(init, a, vs, before.vmStatus, WrittenFlags(agents, init, k, spec, vs, os), flag);
    }
  }

  lemma {:induction false} LinkedVMIff(vs: seq<VMStatus>, agentName: string)
    ensures LinkedVM(vs, agentName).Some? <==> Linked(vs, agentName)
  {
    if vs != [] {
      LinkedVMIff(vs[1..], agentName);
      assert vs == [vs[0]] + vs[1..];
      assert Linked(vs, agentName) <==> vs[0].agentName == agentName || Linked(vs[1..], agentName) by {
        assert forall i :: 0 < i < |vs| ==> vs[i] == vs[1..][i - 1];
        assert forall i :: 0 <= i < |vs[1..]| ==> vs[1..][i] == vs[i + 1];
      }
    }
  }

  /** The status linked the Agent before the pass, at an entry that no rewritten Agent has taken over. */
  ghost predicate LinkKept(listed: seq<Agent>, written: seq<bool>, vs: seq<VMStatus>, agentName: string)
    requires |written| == |listed|
  {
    exists v :: 0 <= v < |vs| && vs[v].agentName == agentName && Unclaimed(listed, written, vs, v, 0)
  }

  /** The pass rewrote the j-th Agent, and no Agent rewritten after it has the same entry. */
  ghost predicate LinkMade(listed: seq<Agent>, written: seq<bool>, vs: seq<VMStatus>, j: nat)
    requires |written| == |listed|
  {
    exists v :: Claims(listed, written, vs, j, v) && Unclaimed(listed, written, vs, v, j + 1)
  }

  /**
   * After a pass over any status, the finalizer of the j-th listed Agent finds a VM to destroy if and
   * only if this very pass rewrote the Agent and no later one took over its entry, or an earlier link
   * was kept.
   */
  lemma LinkSurvivesIff(agents: map<string, Agent>, listed: seq<Agent>, k: Key, spec: Spec, vs: seq<VMStatus>,
                        os: seq<AgentOracle>, j: nat)
    requires NamesDistinct(listed) && j < |listed|
    ensures var flags := WrittenFlags(agents, listed, k, spec, vs, os);
            LinkedVM(AgentsPass(agents, listed, k, spec, vs, os).vmStatus, listed[j].name).Some? <==>
            LinkMade(listed, flags, vs, j) || LinkKept(listed, flags, vs, listed[j].name)
  {
    var ws := AgentsPass(agents, listed, k, spec, vs, os).vmStatus;
    PassLinks(agents, listed, k, spec, vs, os);
    LinkedVMIff(ws, listed[j].name);
    hide AgentsPass, OutcomeOf, WrittenFlags, LinkedVM;
    LinkedIff(listed, vs, ws, WrittenFlags(agents, listed, k, spec, vs, os), j);
  }

  /** Where the links are as a pass leaves them, those of the j-th Agent are its own or kept. */
  lemma LinkedIff(listed: seq<Agent>, vs: seq<VMStatus>, ws: seq<VMStatus>, flags: seq<bool>, j: nat)
    requires LinksAre(listed, vs, ws, flags) && NamesDistinct(listed) && j < |listed|
    ensures Linked(ws, listed[j].name) <==>
            LinkMade(listed, flags, vs, j) || LinkKept(listed, flags, vs, listed[j].name)
  {
    hide FirstEntry, SameMachine;
    if v :| 0 <= v < |ws| && ws[v].agentName == listed[j].name {
      assert NameIs(listed, flags, vs, v, ws[v].agentName);
      if !(vs[v].agentName == listed[j].name && Unclaimed(listed, flags, vs, v, 0)) {
        var i :| Claims(listed, flags, vs, i, v) && listed[i].name == listed[j].name
                 && Unclaimed(listed, flags, vs, v, i + 1);
        ClaimInRange(listed, flags, vs, i, v);
        assert i == j;
      }
    }
    if v :| Claims(listed, flags, vs, j, v) && Unclaimed(listed, flags, vs, v, j + 1) {
      ClaimInRange(listed, flags, vs, j, v);
      assert NameIs(listed, flags, vs, v, ws[v].agentName);
      assert ws[v].agentName == listed[j].name;
    }
    if v :| 0 <= v < |vs| && vs[v].agentName == listed[j].name && Unclaimed(listed, flags, vs, v, 0) {
      assert NameIs(listed, flags, vs, v, ws[v].agentName);
      assert ws[v].agentName == listed[j].name;
    }
  }

  /** An Agent that the pass rewrote has its link unless another Agent of the list matches its machine. */
  lemma RewrittenIsLinked(agents: map<string, Agent>, listed: seq<Agent>, k: Key, spec: Spec, vs: seq<VMStatus>,
                          os: seq<AgentOracle>, j: nat)
    requires j < |listed| && OutcomeOf(agents, listed, k, spec, vs, os, j).Written?
    requires forall i, v :: j < i < |listed| && 0 <= v < |vs| && SameMachine(listed[j], vs[v]) ==>
                              !SameMachine(listed[i], vs[v])
    ensures LinkMade(listed, WrittenFlags(agents, listed, k, spec, vs, os), vs, j)
  {
    var flags := WrittenFlags(agents, listed, k, spec, vs, os);
    assert flags[j];
    var before := AgentsPass(agents, listed[..j], k, spec, vs, os);
    WrittenMatches(Stored(before.agents, listed[j].name), listed[j], k, spec, vs, OracleAt(os, j));
    hide AgentsPass, OutcomeOf, WrittenFlags, SameMachine, IsMatch;
    var v := MatchHasEntry(listed[j], vs);
    assert Claims(listed, flags, vs, j, v);
  }

  /** The finalizer finds the VM that the status links to the Agent, and gets through with it. */
  predicate DestroysLinked(vs: seq<VMStatus>, a: Agent, namespace: string, f: FinalizerOracle) {
    var linked := LinkedVM(vs, a.name);
    linked.Some? && Destroys(linked.value, Some(TemplateKey(a, namespace)), f)
  }

  /** The Agent has been deleted and its finalizer gets as far as looking at the template. */
  predicate Finalizing(a: Agent, vms: seq<VM>, f: FinalizerOracle) {
    && AgentCleanup in a.finalizers && a.deleting && ManagedBy in a.labels && !f.getFails
    && (f.found.Some? ==> f.found.value in vms)
  }

  /**
   * A pass without errors deletes the j-th listed Agent, an unbinding one, expecting its finalizer to
   * clean up the VM; or it finds the Agent in order and users delete it later. With the status of that
   * pass stored, the finalizer destroys a VM if and only if the quota had stopped the pass, the link
   * from before was kept, and the calls get through to the VM it names; after all other passes, the
   * usual ones, it destroys nothing, whatever its calls do. If the status is not stored, the finalizer
   * goes by the links from before the pass.
   */
  lemma DeletedAgentIsCleanedUpIff(
    vms: seq<VM>, held: set<SecretRef>, k: Key, t: Template, o: VmOracle,
    agents: map<string, Agent>, listed: seq<Agent>, os: seq<AgentOracle>, statusOk: bool, j: nat,
    laterVms: seq<VM>, deleted: Agent, namespace: string, f: FinalizerOracle)
    requires VmPass(vms, held, k, t.spec, t.status, o).ok && NamesDistinct(listed)
    requires j < |listed| && listed[j].name != ""
    requires var vs := VmPass(vms, held, k, t.spec, t.status, o).status.vmStatus;
             !OutcomeOf(agents, listed, k, t.spec, vs, os, j).Written?
    requires deleted.name == listed[j].name && Finalizing(deleted, laterVms, f)
    ensures var status := VmPass(vms, held, k, t.spec, t.status, o).status;
            var after := AgentsPass(agents, listed, k, t.spec, status.vmStatus, os).vmStatus;
            var flags := WrittenFlags(agents, listed, k, t.spec, status.vmStatus, os);
            var stored := WithStatus(t, status.(vmStatus := after), statusOk);
            |Finalize(laterVms, deleted, namespace, Some(stored), f).vms| < |laterVms| <==>
            if statusOk then
              && QuotaStops(vms, k, t.spec, t.status, o)
              && LinkKept(listed, flags, t.status.vmStatus, listed[j].name)
              && DestroysLinked(after, deleted, namespace, f)
            else DestroysLinked(t.status.vmStatus, deleted, namespace, f)
  {
    var status := VmPass(vms, held, k, t.spec, t.status, o).status;
    var after := AgentsPass(agents, listed, k, t.spec, status.vmStatus, os).vmStatus;
    OkPassLinks(vms, held, k, t.spec, t.status, o);
    LinkSurvivesIff(agents, listed, k, t.spec, status.vmStatus, os, j);
    NotMadeUnlessWritten(agents, listed, k, t.spec, status.vmStatus, os, j);
    FinalizeDestroysIff(laterVms, deleted, namespace, WithStatus(t, status.(vmStatus := after), statusOk), f);
    hide VmPass, AgentsPass, OutcomeOf, LinkMade, LinkedVM, Rebuilds, QuotaStops, Finalize, Unclaimed, WrittenFlags,
      Destroys, TemplateKey;
  }

  lemma NotMadeUnlessWritten(agents: map<string, Agent>, listed: seq<Agent>, k: Key, spec: Spec, vs: seq<VMStatus>,
                             os: seq<AgentOracle>, j: nat)
    requires j < |listed| && !OutcomeOf(agents, listed, k, spec, vs, os, j).Written?
    ensures !LinkMade(listed, WrittenFlags(agents, listed, k, spec, vs, os), vs, j)
  {
    assert !WrittenFlags(agents, listed, k, spec, vs, os)[j];
    hide OutcomeOf, WrittenFlags, FirstEntry, Unclaimed;
  }

  /**
   * A stored link to an Agent at an entry that no other listed Agent matches is not taken over: a deleted
   * Agent's finalizer then goes by exactly the link from before the pass.
   */
  lemma RightLinkIsKept(agents: map<string, Agent>, listed: seq<Agent>, k: Key, spec: Spec, vs: seq<VMStatus>,
                        os: seq<AgentOracle>, j: nat)
    requires NamesDistinct(listed) && j < |listed| && !OutcomeOf(agents, listed, k, spec, vs, os, j).Written?
    requires forall v, i :: 0 <= v < |vs| && vs[v].agentName == listed[j].name && 0 <= i < |listed| && i != j ==>
                              !SameMachine(listed[i], vs[v])
    ensures LinkedVM(AgentsPass(agents, listed, k, spec, vs, os).vmStatus, listed[j].name) ==
            LinkedVM(vs, listed[j].name)
  {
    var ws := AgentsPass(agents, listed, k, spec, vs, os).vmStatus;
    var flags := WrittenFlags(agents, listed, k, spec, vs, os);
    PassLinks(agents, listed, k, spec, vs, os);
    assert flags[j] == OutcomeOf(agents, listed, k, spec, vs, os, j).Written?;
    hide AgentsPass, OutcomeOf, WrittenFlags, LinkedVM, SameMachine;
    forall v | 0 <= v < |vs|
      ensures ws[v].name == vs[v].name && (ws[v].agentName == listed[j].name <==> vs[v].agentName == listed[j].name)
    {
      assert NameIs(listed, flags, vs, v, ws[v].agentName);
    }
    SameLinkedVM(vs, ws, listed[j].name);
  }

  lemma {:induction false} SameLinkedVM(vs: seq<VMStatus>, ws: seq<VMStatus>, agentName: string)
    requires |vs| == |ws|
    requires forall v :: 0 <= v < |vs| ==>
                           ws[v].name == vs[v].name && (ws[v].agentName == agentName <==> vs[v].agentName == agentName)
    ensures LinkedVM(ws, agentName) == LinkedVM(vs, agentName)
  {
    if vs != [] {
      assert ws[0].name == vs[0].name;
      SameLinkedVM(vs[1..], ws[1..], agentName);
    }
  }

  /** VMs with UUIDs in their text form, none of them twice. */
  ghost predicate SoundUuids(vms: seq<VM>) {
    && (forall i :: 0 <= i < |vms| ==> Serial.Canonical(vms[i].uuid))
    && (forall i, j :: 0 <= i < j < |vms| ==> vms[i].uuid != vms[j].uuid)
  }

  ghost predicate Named(fleet: seq<VM>) {
    && (forall i :: 0 <= i < |fleet| ==> fleet[i].name != "")
    && (forall i, j :: 0 <= i < j < |fleet| ==> fleet[i].name != fleet[j].name)
  }

  /** The entries of a rebuilt status are well identified, given sound VMs: what matching relies on. */
  lemma EntriesWellIdentified(fleet: seq<VM>)
    requires SoundUuids(fleet) && Named(fleet)
    ensures Matching.WellIdentified(Entries(fleet))
  {
    hide Serial.Canonical, Serial.SerialNumber;
  }

  /** A fleet listed from a folder in which no name and no UUID is there twice. */
  lemma {:induction false} ListedFleetSound(vms: seq<VM>, k: Key, spec: Spec, hidden: set<VM>)
    requires UniqueNames(vms) && SoundUuids(vms)
    ensures SoundUuids(Current(vms, k, spec, hidden)) && Named(Current(vms, k, spec, hidden))
  {
    if vms != [] {
      var n := |vms| - 1;
      ListedFleetSound(vms[..n], k, spec, hidden);
      if vms[n] !in hidden && OwnedBy(vms[n], k, spec) {
        CurrentMembers(vms[..n], k, spec, hidden);
        OneMoreSound(vms, Current(vms[..n], k, spec, hidden), k, spec);
      }
      hide SoundUuids, Named, OwnedBy;
    }
  }

  lemma OneMoreSound(vms: seq<VM>, fleet: seq<VM>, k: Key, spec: Spec)
    requires vms != [] && UniqueNames(vms) && SoundUuids(vms) && SoundUuids(fleet) && Named(fleet)
    requires OwnedBy(vms[|vms| - 1], k, spec)
    requires forall vm :: vm in fleet ==> vm in vms[..|vms| - 1] && OwnedBy(vm, k, spec)
    ensures SoundUuids(fleet + [vms[|vms| - 1]]) && Named(fleet + [vms[|vms| - 1]])
  {
    hide Serial.Canonical, TaggedFor, Prefix;
    var last := vms[|vms| - 1];
    forall i | 0 <= i < |fleet| ensures fleet[i].uuid != last.uuid && fleet[i].name != last.name {
      assert fleet[i] in fleet;
      var j :| 0 <= j < |vms| - 1 && vms[..|vms| - 1][j] == fleet[i];
      assert vms[j] == fleet[i];
    }
  }

  /** Hence a pass that rebuilds the status leaves entries that matching can rely on. */
  lemma PassIsWellIdentified(vms: seq<VM>, held: set<SecretRef>, k: Key, spec: Spec, status: Status, o: VmOracle)
    requires Rebuilds(vms, k, spec, status, o) && UniqueNames(vms)
    requires SoundUuids(VmPass(vms, held, k, spec, status, o).vms)
    ensures Matching.WellIdentified(VmPass(vms, held, k, spec, status, o).status.vmStatus)
    ensures UniqueNames(VmPass(vms, held, k, spec, status, o).vms)
  {
    var out := VmPass(vms, held, k, spec, status, o);
    PassKeepsNamesUnique(vms, held, k, spec, status, o);
    hide UniqueNames, Current, NewVMs, ReadyCount, Matching.WellIdentified, SoundUuids, Named;
    ListedFleetSound(out.vms, k, spec, o.hidden);
    ListedFleetSound(out.vms, k, spec, o.rehidden);
    EntriesWellIdentified(Current(out.vms, k, spec, o.rehidden));
    EntriesWellIdentified(Current(out.vms, k, spec, o.hidden));
  }

  lemma PassKeepsNamesUnique(vms: seq<VM>, held: set<SecretRef>, k: Key, spec: Spec, status: Status, o: VmOracle)
    requires UniqueNames(vms)
    ensures UniqueNames(VmPass(vms, held, k, spec, status, o).vms)
  {
    PassAppends(vms, held, k, spec, status, o);
    hide VmPass, UniqueNames, Current, Batch, Scaling, QuotaReached;
    assert vms + [] == vms;
    if NewVMs(vms, k, spec, status.desiredReplicas, o) != [] {
      var fleet := Current(vms, k, spec, o.hidden);
      var plan := Padded(o.plan, ToCreate(status.desiredReplicas, |fleet|, spec.maxVms));
      BatchKeepsNamesUnique(vms, k, spec, Names(fleet), plan);
    }
  }
}
