/**
 * reconcileAgents (controllers/agent.go): what a pass does to one listed Agent, and to a whole list.
 * An update reaches the stored Agent only if the copy it was made from is still the stored one.
 */
module Agents {
  import opened Wrappers
  import opened Tags
  import opened Resources

  datatype Finalizer = AgentCleanup | OtherFinalizer(name: string)

  /** The reasons of an Agent's status conditions that the controller looks for, and all others. */
  datatype Reason = Bound | Unbinding | Unbound | OtherReason(text: string)

  datatype AnnotationKey =
    | VMNameNote | DatacenterNote | FolderNote | CredentialSecretNote | CredentialNamespaceNote | UserNote(key: string)

  /** `uid` tells apart Agents that bore the same name one after the other. */
  datatype Agent = Agent(
    uid: nat,
    name: string,
    finalizers: set<Finalizer>,
    labels: map<LabelKey, string>,
    annotations: map<AnnotationKey, string>,
    hostname: string,
    approved: bool,
    reasons: seq<Reason>,
    vendorUuid: string,
    systemUuid: string,
    serial: string,
    deleting: bool)

  /** The Agents in the API server, by namespace. */
  class AgentStore {
    var namespaces: map<string, map<string, Agent>>
  }

  function In(namespaces: map<string, map<string, Agent>>, namespace: string): map<string, Agent> {
    if namespace in namespaces then namespaces[namespace] else map[]
  }

  /** Only the Agents of one namespace have changed, to these. */
  ghost predicate Changed(
    was: map<string, map<string, Agent>>, now: map<string, map<string, Agent>>, namespace: string,
    agents: map<string, Agent>)
  {
    In(now, namespace) == agents && forall other :: other != namespace ==> In(now, other) == In(was, other)
  }

  /**
   * getAgentNamespace: the one that the first HostedCluster in the template's namespace names, if any;
   * `clusters` are the names given by those listed, None if listing them failed.
   */
  function AgentNamespace(k: Key, spec: Spec, clusters: Option<seq<string>>): string {
    if spec.nodePoolRef.Some? && clusters.Some? && clusters.value != [] && clusters.value[0] != "" then
      clusters.value[0]
    else k.namespace
  }

  /** Reading a Go map: a missing key reads as the empty string. */
  function Lookup<K>(m: map<K, string>, k: K): string {
    if k in m then m[k] else ""
  }

  function AgentUuid(a: Agent): string {
    if a.vendorUuid != "" then a.vendorUuid else a.systemUuid
  }

  predicate IsBound(a: Agent) {
    Bound in a.reasons
  }

  predicate IsUnbindingOrUnbound(a: Agent) {
    Unbinding in a.reasons || Unbound in a.reasons
  }

  /* ---------- matching ---------- */

  /** UUID to VM name; a later entry with the same UUID wins. */
  function ByUuid(vs: seq<VMStatus>): map<string, string> {
    if vs == [] then map[]
    else
      var last := vs[|vs| - 1];
      if last.uuid != "" then ByUuid(vs[..|vs| - 1])[last.uuid := last.name] else ByUuid(vs[..|vs| - 1])
  }

  function BySerial(vs: seq<VMStatus>): map<string, string> {
    if vs == [] then map[]
    else
      var last := vs[|vs| - 1];
      if last.serial != "" then BySerial(vs[..|vs| - 1])[last.serial := last.name] else BySerial(vs[..|vs| - 1])
  }

  predicate IsMatch(a: Agent, vs: seq<VMStatus>) {
    (AgentUuid(a) != "" && AgentUuid(a) in ByUuid(vs)) || (a.serial != "" && a.serial in BySerial(vs))
  }

  /** The VM name an Agent is given: by UUID, else by serial, else its own name. */
  function MatchedName(a: Agent, vs: seq<VMStatus>): string {
    var byUuid := if AgentUuid(a) != "" then Lookup(ByUuid(vs), AgentUuid(a)) else "";
    var name := if byUuid == "" && a.serial != "" then Lookup(BySerial(vs), a.serial) else byUuid;
    if name == "" then a.name else name
  }

  /** The test of the search that records the Agent's name in the status. */
  predicate SameMachine(a: Agent, v: VMStatus) {
    (AgentUuid(a) != "" && v.uuid == AgentUuid(a)) || (a.serial != "" && v.serial == a.serial)
  }

  function Link(vs: seq<VMStatus>, a: Agent): (r: seq<VMStatus>)
    ensures |r| == |vs|
  {
    if vs == [] then []
    else if SameMachine(a, vs[0]) then [vs[0].(agentName := a.name)] + vs[1..]
    else [vs[0]] + Link(vs[1..], a)
  }

  /* ---------- first write: finalizer and managed-by label ---------- */

  predicate NeedsClaim(a: Agent, k: Key) {
    AgentCleanup !in a.finalizers || Lookup(a.labels, ManagedBy) != k.name
  }

  function Claim(a: Agent, k: Key): Agent {
    a.(finalizers := a.finalizers + {AgentCleanup},
       labels := if Lookup(a.labels, ManagedBy) != k.name then a.labels[ManagedBy := k.name] else a.labels)
  }

  /* ---------- the decision ---------- */

  datatype Fate = Delete | Leave | Dress

  function Decide(a: Agent, k: Key, spec: Spec): Fate {
    if IsUnbindingOrUnbound(a) && AgentCleanup in a.finalizers
       && Lookup(a.labels, ManagedBy) != "" && Lookup(a.labels, Binding) != "" then
      if Lookup(a.labels, ManagedBy) != k.name then Leave
      else if spec.testMode || spec.nodePoolRef.None? || Lookup(a.labels, NodePoolName) == spec.nodePoolRef.value then
        Delete
      else Leave
    else Dress
  }

  /* ---------- second write: labels, hostname, approval, annotations ---------- */

  predicate UserLabelsChange(labels: map<LabelKey, string>, selector: map<LabelKey, string>) {
    exists key :: key in selector && Lookup(labels, key) != selector[key]
  }

  /** A selector entry is written only where the label reads differently. */
  function UserLabels(labels: map<LabelKey, string>, selector: map<LabelKey, string>): map<LabelKey, string> {
    labels + (map key | key in selector && Lookup(labels, key) != selector[key] :: selector[key])
  }

  function PoolLabel(labels: map<LabelKey, string>, pool: string): map<LabelKey, string> {
    if Lookup(labels, NodePoolName) != pool then labels[NodePoolName := pool] else labels
  }

  /** The binding label is first set when the Agent is bound, then follows the pool and never goes. */
  predicate BindingChanges(labels: map<LabelKey, string>, pool: string, bound: bool) {
    if Lookup(labels, Binding) == "" then bound else Lookup(labels, Binding) != pool
  }

  function BindingLabel(labels: map<LabelKey, string>, pool: string, bound: bool): map<LabelKey, string> {
    if BindingChanges(labels, pool, bound) then labels[Binding := pool] else labels
  }

  function DressedLabels(a: Agent, spec: Spec): map<LabelKey, string> {
    var user := UserLabels(a.labels, spec.agentLabelSelector);
    if spec.nodePoolRef.None? then user
    else BindingLabel(PoolLabel(user, spec.nodePoolRef.value), spec.nodePoolRef.value, IsBound(a))
  }

  predicate LabelsChange(a: Agent, spec: Spec) {
    || UserLabelsChange(a.labels, spec.agentLabelSelector)
    || (spec.nodePoolRef.Some? &&
        var user, pool := UserLabels(a.labels, spec.agentLabelSelector), spec.nodePoolRef.value;
        Lookup(user, NodePoolName) != pool || BindingChanges(PoolLabel(user, pool), pool, IsBound(a)))
  }

  /** What is kept on the Agent so that its VM can be cleaned up without the template. */
  function CleanupNotes(notes: map<AnnotationKey, string>, k: Key, spec: Spec,
      vmName: string): map<AnnotationKey, string> {
    notes[VMNameNote := vmName][DatacenterNote := spec.datacenter][FolderNote := spec.folder]
    [CredentialSecretNote := CredentialName(spec)][CredentialNamespaceNote := k.namespace]
  }

  predicate NotesChange(a: Agent, vmName: string) {
    vmName != "" && Lookup(a.annotations, VMNameNote) != vmName
  }

  predicate NeedsDress(a: Agent, spec: Spec, vmName: string) {
    LabelsChange(a, spec) || a.hostname != vmName || !a.approved || NotesChange(a, vmName)
  }

  function Dressed(a: Agent, k: Key, spec: Spec, vmName: string): Agent {
    a.(labels := DressedLabels(a, spec),
       hostname := vmName,
       approved := true,
       annotations := if NotesChange(a, vmName) then CleanupNotes(a.annotations, k, spec, vmName) else a.annotations)
  }

  /* ---------- one Agent ---------- */

  datatype AgentOracle = AgentOracle(claimOk: bool, deleteOk: bool, dressOk: bool)

  datatype Outcome = NoMatch | ClaimFailed | Deletion(done: bool) | LeftAlone | Steady | DressFailed | Written

  /** The stored Agent afterwards, what happened, and which updates were sent. */
  datatype Processed = Processed(stored: Option<Agent>, outcome: Outcome, claimSent: bool, dressSent: bool)

  /** An Agent that carries finalizers is only marked; without any it goes at once. */
  function MarkDeleted(p: Option<Agent>): Option<Agent> {
    if p.None? || p.value.finalizers == {} then None else Some(p.value.(deleting := true))
  }

  function Process(p: Option<Agent>, a: Agent, k: Key, spec: Spec, vs: seq<VMStatus>, o: AgentOracle): Processed {
    if !IsMatch(a, vs) then Processed(p, NoMatch, false, false)
    else
      var claim := NeedsClaim(a, k);
      if claim && !(o.claimOk && p == Some(a)) then Processed(p, ClaimFailed, true, false)
      else
        var c := if claim then Claim(a, k) else a;
        var p' := if claim then Some(c) else p;
        match Decide(c, k, spec)
        case Delete => Processed(if o.deleteOk then MarkDeleted(p') else p', Deletion(o.deleteOk), claim, false)
        case Leave => Processed(p', LeftAlone, claim, false)
        case Dress =>
          var vmName := MatchedName(a, vs);
          if !NeedsDress(c, spec, vmName) then Processed(p', Steady, claim, false)
          else if o.dressOk && p' == Some(c) then Processed(Some(Dressed(c, k, spec, vmName)), Written, claim, true)
          else Processed(p', DressFailed, claim, true)
  }

  /* ---------- a list of Agents ---------- */

  datatype AgentsOutcome = AgentsOutcome(agents: map<string, Agent>, vmStatus: seq<VMStatus>)

  function Stored(agents: map<string, Agent>, name: string): Option<Agent> {
    if name in agents then Some(agents[name]) else None
  }

  function Store(agents: map<string, Agent>, name: string, p: Option<Agent>): map<string, Agent> {
    if p.Some? then agents[name := p.value] else agents - {name}
  }

  function OracleAt(os: seq<AgentOracle>, i: nat): AgentOracle {
    if i < |os| then os[i] else AgentOracle(false, false, false)
  }

  /** Agents are matched against the VMs as the pass found them; links are recorded as it goes. */
  function AgentsPass(agents: map<string, Agent>, listed: seq<Agent>, k: Key, spec: Spec, vs: seq<VMStatus>,
                      os: seq<AgentOracle>): AgentsOutcome
  {
    if listed == [] then AgentsOutcome(agents, vs)
    else
      var n := |listed| - 1;
      var before := AgentsPass(agents, listed[..n], k, spec, vs, os);
      var a := listed[n];
      var r := Process(Stored(before.agents, a.name), a, k, spec, vs, OracleAt(os, n));
      AgentsOutcome(Store(before.agents, a.name, r.stored),
                    if r.outcome.Written? then Link(before.vmStatus, a) else before.vmStatus)
  }

  /** What the pass did with the j-th listed Agent. */
  function OutcomeOf(agents: map<string, Agent>, listed: seq<Agent>, k: Key, spec: Spec, vs: seq<VMStatus>,
                     os: seq<AgentOracle>, j: nat): Outcome
    requires j < |listed|
  {
    var before := AgentsPass(agents, listed[..j], k, spec, vs, os);
    Process(Stored(before.agents, listed[j].name), listed[j], k, spec, vs, OracleAt(os, j)).outcome
  }

  /* ---------- the pass in place ---------- */

  method IsAgentBound(reasons: seq<Reason>) returns (found: bool)
    ensures found <==> Bound in reasons
  {
    for i := 0 to |reasons|
      invariant Bound !in reasons[..i]
    {
      if reasons[i] == Bound {
        return true;
      }
    }
    return false;
  }

  method IsAgentUnbindingOrUnbound(reasons: seq<Reason>) returns (found: bool)
    ensures found <==> Unbinding in reasons || Unbound in reasons
  {
    for i := 0 to |reasons|
      invariant Unbinding !in reasons[..i] && Unbound !in reasons[..i]
    {
      if reasons[i] == Unbinding || reasons[i] == Unbound {
        return true;
      }
    }
    return false;
  }

  method BuildLookups(vs: seq<VMStatus>) returns (vmByUUID: map<string, string>, vmBySerial: map<string, string>)
    ensures vmByUUID == ByUuid(vs) && vmBySerial == BySerial(vs)
  {
    vmByUUID, vmBySerial := map[], map[];
    for i := 0 to |vs|
      invariant vmByUUID == ByUuid(vs[..i]) && vmBySerial == BySerial(vs[..i])
    {
      assert vs[..i + 1][..i] == vs[..i];
      if vs[i].uuid != "" {
        vmByUUID := vmByUUID[vs[i].uuid := vs[i].name];
      }
      if vs[i].serial != "" {
        vmBySerial := vmBySerial[vs[i].serial := vs[i].name];
      }
    }
    assert vs[..|vs|] == vs;
  }

  /** The selector entries of `keys` that read differently on the Agent. */
  function Differing(labels: map<LabelKey, string>, selector: map<LabelKey, string>,
      keys: set<LabelKey>): map<LabelKey, string> {
    map key | key in selector && key in keys && Lookup(labels, key) != selector[key] :: selector[key]
  }

  /** The labels once the entries of `keys` have been looked at. */
  function Partly(labels: map<LabelKey, string>, selector: map<LabelKey, string>,
      keys: set<LabelKey>): map<LabelKey, string> {
    labels + Differing(labels, selector, keys)
  }

  lemma DifferingStep(labels: map<LabelKey, string>, selector: map<LabelKey, string>, keys: set<LabelKey>,
      key: LabelKey)
    requires key in selector && key !in keys
    ensures var now := Partly(labels, selector, keys);
            Partly(labels, selector, keys + {key}) ==
            if Lookup(now, key) != selector[key] then now[key := selector[key]] else now
    ensures Differing(labels, selector, keys + {key}) != map[] <==>
            Differing(labels, selector, keys) != map[] || Lookup(Partly(labels, selector, keys), key) != selector[key]
  {
    var was, now := Differing(labels, selector, keys), Differing(labels, selector, keys + {key});
    if Lookup(labels, key) != selector[key] {
      assert now == was[key := selector[key]];
      assert key in now;
    } else {
      assert now == was;
    }
  }

  lemma DifferingNone(labels: map<LabelKey, string>, selector: map<LabelKey, string>)
    ensures Differing(labels, selector, {}) == map[] && Partly(labels, selector, {}) == labels
  {
    assert Differing(labels, selector, {}) == map[];
  }

  lemma DifferingAll(labels: map<LabelKey, string>, selector: map<LabelKey, string>)
    ensures Partly(labels, selector, selector.Keys) == UserLabels(labels, selector)
    ensures Differing(labels, selector, selector.Keys) != map[] <==> UserLabelsChange(labels, selector)
  {
    var differing := Differing(labels, selector, selector.Keys);
    assert differing == (map key | key in selector && Lookup(labels, key) != selector[key] :: selector[key]);
    if UserLabelsChange(labels, selector) {
      var key :| key in selector && Lookup(labels, key) != selector[key];
      assert key in differing;
    } else {
      assert differing == map[];
    }
  }

  /** The loop over the selector takes its entries in any order; the result does not depend on it. */
  method ApplyUserLabels(labels: map<LabelKey, string>, selector: map<LabelKey, string>)
    returns (result: map<LabelKey, string>, needsUpdate: bool)
    ensures result == UserLabels(labels, selector)
    ensures needsUpdate == UserLabelsChange(labels, selector)
  {
    hide *;
    result, needsUpdate := labels, false;
    var todo := selector.Keys;
    ghost var done: set<LabelKey> := {};
    DifferingNone(labels, selector);
    while todo != {}
      invariant todo !! done && todo + done == selector.Keys
      invariant result == Partly(labels, selector, done)
      invariant needsUpdate <==> Differing(labels, selector, done) != map[]
      decreases |todo|
    {
      var key :| key in todo;
      DifferingStep(labels, selector, done, key);
      if Lookup(result, key) != selector[key] {
        result := result[key := selector[key]];
        needsUpdate := true;
      }
      todo := todo - {key};
      done := done + {key};
    }
    assert done == selector.Keys;
    DifferingAll(labels, selector);
  }

  /** The label part of the second write. */
  method ApplyLabels(a: Agent, spec: Spec) returns (labels: map<LabelKey, string>, needsUpdate: bool)
    ensures labels == DressedLabels(a, spec) && needsUpdate == LabelsChange(a, spec)
  {
    hide UserLabels, UserLabelsChange;
    labels, needsUpdate := ApplyUserLabels(a.labels, spec.agentLabelSelector);
    if spec.nodePoolRef.Some? {
      var nodePoolName := spec.nodePoolRef.value;
      if Lookup(labels, NodePoolName) != nodePoolName {
        labels := labels[NodePoolName := nodePoolName];
        needsUpdate := true;
      }
      var existingBindingLabel := Lookup(labels, Binding);
      if existingBindingLabel == "" {
        var bound := IsAgentBound(a.reasons);
        if bound {
          labels := labels[Binding := nodePoolName];
          needsUpdate := true;
        }
      } else {
        if existingBindingLabel != nodePoolName {
          labels := labels[Binding := nodePoolName];
          needsUpdate := true;
        }
      }
    }
  }

  /** Labels that do not change stay as they are, so the guarded write loses nothing. */
  lemma UnchangedLabels(a: Agent, spec: Spec)
    ensures !LabelsChange(a, spec) ==> DressedLabels(a, spec) == a.labels
  {
    if !LabelsChange(a, spec) {
      assert UserLabels(a.labels, spec.agentLabelSelector) == a.labels;
    }
  }

  method ClaimAgent(listed: Agent, k: Key) returns (agent: Agent, needsUpdate: bool)
    ensures needsUpdate == NeedsClaim(listed, k)
    ensures agent == if needsUpdate then Claim(listed, k) else listed
  {
    agent, needsUpdate := listed, false;
    if AgentCleanup !in agent.finalizers {
      agent := agent.(finalizers := agent.finalizers + {AgentCleanup});
      needsUpdate := true;
    }
    if Lookup(agent.labels, ManagedBy) != k.name {
      agent := agent.(labels := agent.labels[ManagedBy := k.name]);
      needsUpdate := true;
    }
    assert AgentCleanup in listed.finalizers ==> listed.finalizers + {AgentCleanup} == listed.finalizers;
  }

  method DecideAgent(agent: Agent, k: Key, spec: Spec) returns (fate: Fate)
    ensures fate == Decide(agent, k, spec)
  {
    var unbinding := IsAgentUnbindingOrUnbound(agent.reasons);
    if unbinding {
      var managedBy, bindingLabel := Lookup(agent.labels, ManagedBy), Lookup(agent.labels, Binding);
      if AgentCleanup in agent.finalizers && managedBy != "" && bindingLabel != "" {
        if managedBy != k.name {
          return Leave;
        }
        if !spec.testMode && spec.nodePoolRef.Some? {
          if Lookup(agent.labels, NodePoolName) != spec.nodePoolRef.value {
            return Leave;
          }
        }
        return Delete;
      }
    }
    return Dress;
  }

  method PickName(a: Agent, ghost vs: seq<VMStatus>, vmByUUID: map<string, string>, vmBySerial: map<string, string>)
    returns (vmName: string)
    requires vmByUUID == ByUuid(vs) && vmBySerial == BySerial(vs)
    ensures vmName == MatchedName(a, vs)
  {
    var agentUUID := AgentUuid(a);
    vmName := "";
    if agentUUID != "" && agentUUID in vmByUUID {
      vmName := vmByUUID[agentUUID];
    }
    if vmName == "" && a.serial != "" && a.serial in vmBySerial {
      vmName := vmBySerial[a.serial];
    }
    if vmName == "" {
      vmName := a.name;
    }
  }

  method DressAgent(a: Agent, k: Key, spec: Spec, vmName: string) returns (agent: Agent, needsUpdate: bool)
    ensures needsUpdate == NeedsDress(a, spec, vmName)
    ensures agent == Dressed(a, k, spec, vmName)
  {
    hide DressedLabels, LabelsChange, CleanupNotes;
    agent := a;
    var labels;
    labels, needsUpdate := ApplyLabels(agent, spec);
    UnchangedLabels(a, spec);
    if needsUpdate {
      agent := agent.(labels := labels);
    }
    if agent.hostname != vmName {
      agent := agent.(hostname := vmName);
      needsUpdate := true;
    }
    if !agent.approved {
      agent := agent.(approved := true);
      needsUpdate := true;
    }
    if vmName != "" && Lookup(agent.annotations, VMNameNote) != vmName {
      agent := agent.(annotations := CleanupNotes(agent.annotations, k, spec, vmName));
      needsUpdate := true;
    }
  }

  /** The body of the loop over Agents; `stored` is what the API server holds. */
  method ReconcileAgent(stored: Option<Agent>, listed: Agent, k: Key, spec: Spec, ghost vs: seq<VMStatus>,
                        vmByUUID: map<string, string>, vmBySerial: map<string, string>, o: AgentOracle)
    returns (stored': Option<Agent>, written: bool)
    requires vmByUUID == ByUuid(vs) && vmBySerial == BySerial(vs)
    ensures stored' == Process(stored, listed, k, spec, vs, o).stored
    ensures written <==> Process(stored, listed, k, spec, vs, o).outcome.Written?
  {
    hide ByUuid, BySerial, NeedsClaim, Claim, Decide, MatchedName, NeedsDress, Dressed, MarkDeleted;
    var agentUUID, agentSerial := AgentUuid(listed), listed.serial;
    stored', written := stored, false;
    if !((agentUUID != "" && agentUUID in vmByUUID) || (agentSerial != "" && agentSerial in vmBySerial)) {
      return;
    }
    var agent, needsUpdate := ClaimAgent(listed, k);
    if needsUpdate {
      if !(o.claimOk && stored' == Some(listed)) {
        return;
      }
      stored' := Some(agent);
    }
    var fate := DecideAgent(agent, k, spec);
    if fate == Delete {
      if o.deleteOk {
        stored' := MarkDeleted(stored');
      }
      return;
    }
    if fate == Leave {
      return;
    }
    var vmName := PickName(listed, vs, vmByUUID, vmBySerial);
    var base := agent;
    agent, needsUpdate := DressAgent(agent, k, spec, vmName);
    if needsUpdate && o.dressOk && stored' == Some(base) {
      stored', written := Some(agent), true;
    }
  }

  /** The search works at the first entry of the Agent's machine. */
  lemma {:induction false} LinkAt(vs: seq<VMStatus>, a: Agent, i: nat)
    requires i <= |vs|
    requires forall j :: 0 <= j < i ==> !SameMachine(a, vs[j])
    requires i < |vs| ==> SameMachine(a, vs[i])
    ensures Link(vs, a) == if i == |vs| then vs else vs[i := vs[i].(agentName := a.name)]
  {
    if i > 0 {
      LinkAt(vs[1..], a, i - 1);
    }
  }

  /** The search that records the Agent's name. */
  method RecordAgent(vmStatus: seq<VMStatus>, a: Agent) returns (result: seq<VMStatus>)
    ensures result == Link(vmStatus, a)
  {
    result := vmStatus;
    for i := 0 to |vmStatus|
      invariant result == vmStatus
      invariant forall j :: 0 <= j < i ==> !SameMachine(a, vmStatus[j])
    {
      if SameMachine(a, vmStatus[i]) {
        LinkAt(vmStatus, a, i);
        result := result[i := result[i].(agentName := a.name)];
        return;
      }
    }
    LinkAt(vmStatus, a, |vmStatus|);
  }

  /** The Agents that the list call returns, if it succeeds. */
  function Listing(agentList: Option<seq<Agent>>): seq<Agent> {
    if agentList.Some? then agentList.value else []
  }

  /** One more Agent of the list. */
  lemma AgentsPassStep(agents: map<string, Agent>, listed: seq<Agent>, i: nat, k: Key, spec: Spec,
                       vs: seq<VMStatus>, os: seq<AgentOracle>)
    requires i < |listed|
    ensures AgentsPass(agents, listed[..0], k, spec, vs, os) == AgentsOutcome(agents, vs)
    ensures var before := AgentsPass(agents, listed[..i], k, spec, vs, os);
            var a := listed[i];
            var r := Process(Stored(before.agents, a.name), a, k, spec, vs, OracleAt(os, i));
            AgentsPass(agents, listed[..i + 1], k, spec, vs, os) ==
            AgentsOutcome(Store(before.agents, a.name, r.stored),
                          if r.outcome.Written? then Link(before.vmStatus, a) else before.vmStatus)
  {
    hide Process, Link, OracleAt;
    assert listed[..i + 1][..i] == listed[..i];
  }

  method GetAgentNamespace(t: TemplateObject, clusters: Option<seq<string>>) returns (namespace: string)
    ensures namespace == AgentNamespace(t.key, t.spec, clusters)
    ensures t.spec.nodePoolRef == None || clusters == None || clusters == Some([]) ==> namespace == t.key.namespace
    ensures t.spec.nodePoolRef.Some? && clusters.Some? && |clusters.value| > 0 ==>
              namespace == if clusters.value[0] == "" then t.key.namespace else clusters.value[0]
  {
    if t.spec.nodePoolRef.None? {
      return t.key.namespace;
    }
    if clusters.None? {
      return t.key.namespace;
    }
    if |clusters.value| > 0 {
      if clusters.value[0] != "" {
        return clusters.value[0];
      }
    }
    return t.key.namespace;
  }

  method ReconcileAgents(t: TemplateObject, store: AgentStore, clusters: Option<seq<string>>,
                         agentList: Option<seq<Agent>>, os: seq<AgentOracle>)
    returns (ok: bool)
    modifies t, store
    ensures ok == agentList.Some?
    ensures var namespace := AgentNamespace(t.key, t.spec, clusters);
            var out := AgentsPass(In(old(store.namespaces), namespace), Listing(agentList), t.key, t.spec,
                                  old(t.status.vmStatus), os);
            && Changed(old(store.namespaces), store.namespaces, namespace, out.agents)
            && t.status == old(t.status).(vmStatus := out.vmStatus)
  {
    var namespace := GetAgentNamespace(t, clusters);
    if agentList.None? {
      return false;
    }
    var items := agentList.value;
    ghost var vs, were := t.status.vmStatus, In(store.namespaces, namespace);
    assert items[..0] == [];
    var vmByUUID, vmBySerial := BuildLookups(t.status.vmStatus);
    for i := 0 to |items|
      invariant AgentsOutcome(In(store.namespaces, namespace), t.status.vmStatus) ==
                AgentsPass(were, items[..i], t.key, t.spec, vs, os)
      invariant forall other :: other != namespace ==> In(store.namespaces, other) == In(old(store.namespaces), other)
      invariant t.status == old(t.status).(vmStatus := t.status.vmStatus)
    {
      var agent, agents := items[i], In(store.namespaces, namespace);
      AgentsPassStep(were, items, i, t.key, t.spec, vs, os);
      hide AgentsPass, Process, Link, OracleAt, ByUuid, BySerial;
      var stored, written := ReconcileAgent(Stored(agents, agent.name), agent, t.key, t.spec, vs,
                                            vmByUUID, vmBySerial, OracleAt(os, i));
      store.namespaces := store.namespaces[namespace := Store(agents, agent.name, stored)];
      if written {
        var vmStatus := RecordAgent(t.status.vmStatus, agent);
        t.status := t.status.(vmStatus := vmStatus);
      }
    }
    assert items[..|items|] == items;
    return true;
  }
}
