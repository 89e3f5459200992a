/** Which VM an Agent is matched to (controllers/agent.go): two searches over the same status entries. */
module Matching {
  import opened Serial
  import opened Resources
  import opened Agents

  /** Status entries as reconcileVMs writes them for distinct VMs with well-formed UUIDs. */
  ghost predicate WellIdentified(vs: seq<VMStatus>) {
    && (forall i :: 0 <= i < |vs| ==>
          Canonical(vs[i].uuid) && vs[i].serial == SerialNumber(vs[i].uuid) && vs[i].name != "")
    && (forall i, j :: 0 <= i < j < |vs| ==> vs[i].uuid != vs[j].uuid && vs[i].name != vs[j].name)
  }

  predicate HasUuid(a: Agent, v: VMStatus) {
    AgentUuid(a) != "" && v.uuid == AgentUuid(a)
  }

  predicate HasSerial(a: Agent, v: VMStatus) {
    a.serial != "" && v.serial == a.serial
  }

  /** Distinct UUIDs have distinct serials, because the serial is injective. */
  lemma SerialsDistinct(vs: seq<VMStatus>)
    requires WellIdentified(vs)
    ensures forall i :: 0 <= i < |vs| ==> vs[i].uuid != "" && vs[i].serial != ""
    ensures forall i, j :: 0 <= i < j < |vs| ==> vs[i].serial != vs[j].serial
  {
    forall i | 0 <= i < |vs| ensures vs[i].uuid != "" && vs[i].serial != "" {
      SerialInjective(vs[i].uuid, vs[i].uuid);
    }
    forall i, j | 0 <= i < j < |vs| ensures vs[i].serial != vs[j].serial {
      SerialInjective(vs[i].uuid, vs[j].uuid);
    }
  }

  predicate UuidsDistinct(vs: seq<VMStatus>) {
    forall i, j :: 0 <= i < j < |vs| ==> vs[i].uuid != vs[j].uuid
  }

  predicate SerialsApart(vs: seq<VMStatus>) {
    forall i, j :: 0 <= i < j < |vs| ==> vs[i].serial != vs[j].serial
  }

  lemma {:induction false} ByUuidReads(vs: seq<VMStatus>, u: string)
    requires u != "" && UuidsDistinct(vs)
    ensures u in ByUuid(vs) <==> exists i :: 0 <= i < |vs| && vs[i].uuid == u
    ensures forall i :: 0 <= i < |vs| && vs[i].uuid == u ==> Lookup(ByUuid(vs), u) == vs[i].name
  {
    if vs != [] {
      var n := |vs| - 1;
      ByUuidReads(vs[..n], u);
      assert forall i :: 0 <= i < n ==> vs[..n][i] == vs[i];
      assert vs[n].uuid == u ==> forall i :: 0 <= i < n ==> vs[i].uuid != u;
    }
  }

  lemma {:induction false} BySerialReads(vs: seq<VMStatus>, s: string)
    requires s != "" && SerialsApart(vs)
    ensures s in BySerial(vs) <==> exists i :: 0 <= i < |vs| && vs[i].serial == s
    ensures forall i :: 0 <= i < |vs| && vs[i].serial == s ==> Lookup(BySerial(vs), s) == vs[i].name
  {
    if vs != [] {
      var n := |vs| - 1;
      BySerialReads(vs[..n], s);
      assert forall i :: 0 <= i < n ==> vs[..n][i] == vs[i];
      assert vs[n].serial == s ==> forall i :: 0 <= i < n ==> vs[i].serial != s;
    }
  }

  /** The two ways into the maps, read as searches over the entries. */
  lemma MapsAreSearches(a: Agent, vs: seq<VMStatus>)
    requires WellIdentified(vs)
    ensures IsMatch(a, vs) <==> exists i :: 0 <= i < |vs| && SameMachine(a, vs[i])
    ensures forall i :: 0 <= i < |vs| && HasUuid(a, vs[i]) ==> MatchedName(a, vs) == vs[i].name
    ensures forall i :: 0 <= i < |vs| && HasSerial(a, vs[i]) && (forall j :: 0 <= j < |vs| ==> !HasUuid(a, vs[j])) ==>
              MatchedName(a, vs) == vs[i].name
  {
    hide Canonical, SerialNumber, ByUuid, BySerial;
    SerialsDistinct(vs);
    if AgentUuid(a) != "" { ByUuidReads(vs, AgentUuid(a)); }
    if a.serial != "" { BySerialReads(vs, a.serial); }
  }

  /** The agent-name fallback is never reached: a matching Agent gets the name of a VM it shares. */
  lemma MatchNamesAVM(a: Agent, vs: seq<VMStatus>)
    requires WellIdentified(vs) && IsMatch(a, vs)
    ensures exists i :: 0 <= i < |vs| && SameMachine(a, vs[i]) && vs[i].name == MatchedName(a, vs)
  {
    MapsAreSearches(a, vs);
    hide IsMatch, MatchedName, WellIdentified;
    var i :| 0 <= i < |vs| && SameMachine(a, vs[i]);
    if j :| 0 <= j < |vs| && HasUuid(a, vs[j]) {
      assert SameMachine(a, vs[j]);
    } else {
      assert HasSerial(a, vs[i]);
    }
  }

  /** The Agent's two identifiers belong to different VMs, and the one with its serial comes first. */
  ghost predicate SerialShadowsUuid(a: Agent, vs: seq<VMStatus>) {
    exists i, j :: 0 <= i < j < |vs| && HasSerial(a, vs[i]) && HasUuid(a, vs[j])
  }

  /**
   * The search that records the Agent in the status stops at an entry i; that is the VM whose name
   * became the hostname if and only if the serial of an earlier VM does not shadow the UUID.
   */
  lemma SearchesAgreeIff(a: Agent, vs: seq<VMStatus>, i: nat)
    requires WellIdentified(vs)
    requires i < |vs| && SameMachine(a, vs[i]) && forall j :: 0 <= j < i ==> !SameMachine(a, vs[j])
    ensures vs[i].name == MatchedName(a, vs) <==> !SerialShadowsUuid(a, vs)
    ensures Link(vs, a) == vs[i := vs[i].(agentName := a.name)]
  {
    MapsAreSearches(a, vs);
    LinkAt(vs, a, i);
    SerialsDistinct(vs);
    hide MatchedName, IsMatch, Link;
    if SerialShadowsUuid(a, vs) {
      var p, q :| 0 <= p < q < |vs| && HasSerial(a, vs[p]) && HasUuid(a, vs[q]);
      assert SameMachine(a, vs[p]);
      assert i <= p;
      assert vs[i].name != vs[q].name;
    } else if !HasUuid(a, vs[i]) {
      assert HasSerial(a, vs[i]);
      assert forall j :: 0 <= j < |vs| && HasUuid(a, vs[j]) ==> SameMachine(a, vs[j]);
      assert forall j :: 0 <= j < |vs| ==> !HasUuid(a, vs[j]);
    }
  }

  /** Agents that share no VM get different hostnames. */
  lemma HostnamesDistinct(a: Agent, b: Agent, vs: seq<VMStatus>)
    requires WellIdentified(vs) && IsMatch(a, vs) && IsMatch(b, vs)
    requires forall i :: 0 <= i < |vs| ==> !(SameMachine(a, vs[i]) && SameMachine(b, vs[i]))
    ensures MatchedName(a, vs) != MatchedName(b, vs)
  {
    MatchNamesAVM(a, vs);
    MatchNamesAVM(b, vs);
    hide IsMatch, MatchedName, SameMachine;
  }
}
