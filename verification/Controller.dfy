/**
 * Reconcile (controllers/vmwarenodepooltemplate_controller.go) in place: one request for a template,
 * from the finalizer to the stored status, is one event of the runs.
 */
module Controller {
  import opened Wrappers
  import opened GoFmt
  import opened Naming
  import opened Tags
  import opened Resources
  import opened Fleet
  import opened VmReconcile
  import opened Agents
  import opened Lifecycle
  import opened FleetRuns
  import opened NodePools
  import AgentRuns

  /** The agent names standing in a status. */
  function AgentNames(vs: seq<VMStatus>): (r: seq<string>)
    ensures |r| == |vs|
    ensures forall i :: 0 <= i < |vs| ==> r[i] == vs[i].agentName
  {
    seq(|vs|, i requires 0 <= i < |vs| => vs[i].agentName)
  }

  lemma {:induction false} LinkRelinks(vs: seq<VMStatus>, a: Agent)
    ensures |Link(vs, a)| == |vs|
    ensures forall i :: 0 <= i < |vs| ==> Link(vs, a)[i] == vs[i].(agentName := Link(vs, a)[i].agentName)
  {
    hide SameMachine;
    if vs != [] {
      LinkRelinks(vs[1..], a);
      var rest := Link(vs[1..], a);
      assert Link(vs, a) == if SameMachine(a, vs[0]) then [vs[0].(agentName := a.name)] + vs[1..] else [vs[0]] + rest;
      hide Link;
      forall i | 0 <= i < |vs| ensures Link(vs, a)[i] == vs[i].(agentName := Link(vs, a)[i].agentName) {
        if i > 0 {
          assert rest[i - 1] == vs[1..][i - 1].(agentName := rest[i - 1].agentName);
        }
      }
    }
  }

  /** An Agent pass changes nothing of the VM status but the links. */
  lemma {:induction false} AgentsPassRelinks(
    agents: map<string, Agent>, listed: seq<Agent>, k: Key, spec: Spec, vs: seq<VMStatus>, os: seq<AgentOracle>)
    ensures var ws := AgentsPass(agents, listed, k, spec, vs, os).vmStatus;
            |ws| == |vs| && forall i :: 0 <= i < |vs| ==> ws[i] == vs[i].(agentName := ws[i].agentName)
  {
    if listed != [] {
      var n := |listed| - 1;
      AgentsPassRelinks(agents, listed[..n], k, spec, vs, os);
      hide Process, Link;
      LinkRelinks(AgentsPass(agents, listed[..n], k, spec, vs, os).vmStatus, listed[n]);
    }
  }

  lemma RelinkedIs(status: Status, ws: seq<VMStatus>)
    requires |ws| == |status.vmStatus|
    requires forall i :: 0 <= i < |ws| ==> ws[i] == status.vmStatus[i].(agentName := ws[i].agentName)
    ensures Relinked(status, AgentNames(ws)) == status.(vmStatus := ws)
  {
    assert Relinked(status, AgentNames(ws)).vmStatus == ws;
  }

  /** How a live template's pass turns out: its own calls, the Agents as listed, and the calls on them. */
  datatype PassOracle = PassOracle(
    normal: NormalOracle, poolOk: bool, clusters: Option<seq<string>>, listed: Option<seq<Agent>>,
    agents: seq<AgentOracle>)

  /** The VM part of the pass, if the pass gets that far. */
  function VmPart(w: World, k: Key, o: NormalOracle): Option<VmOutcome>
    requires k in w.templates
  {
    var t := w.templates[k];
    if o.course.Proceed? && (t.finalizer || o.finalizerOk) then
      Some(VmPass(w.vms, w.held, k, t.spec, StartStatus(t, o.course), o.vm))
    else None
  }

  /** The Agents are only looked at once the VM part has succeeded. */
  function AgentsOf(out: VmOutcome, agents: map<string, Agent>, k: Key, spec: Spec, o: PassOracle): AgentsOutcome {
    if out.ok then AgentsPass(agents, Listing(o.listed), k, spec, out.status.vmStatus, o.agents)
    else AgentsOutcome(agents, out.status.vmStatus)
  }

  /** What the pass makes of the Agents. */
  function AgentPart(w: World, agents: map<string, Agent>, k: Key, o: PassOracle): AgentsOutcome
    requires k in w.templates
  {
    var out := VmPart(w, k, o.normal);
    if out.Some? then AgentsOf(out.value, agents, k, w.templates[k].spec, o) else AgentsOutcome(agents, [])
  }

  /** The event that one pass amounts to: its links are those that its Agent part recorded. */
  function PassEvent(w: World, agents: map<string, Agent>, k: Key, o: PassOracle): Event
    requires k in w.templates
  {
    ReconcileTemplate(k, o.normal.(links := AgentNames(AgentPart(w, agents, k, o).vmStatus)))
  }

  /** The pass of a template that holds its finalizer, course by course. */
  lemma PassByCourse(w: World, agents: map<string, Agent>, k: Key, o: PassOracle)
    requires k in w.templates && w.templates[k].finalizer
    ensures var t, w' := w.templates[k], Apply(w, PassEvent(w, agents, k, o));
            match o.normal.course
            case Unreachable => w' == w && AgentPart(w, agents, k, o).agents == agents
            case NoNodePool =>
              var idle := t.status.(desiredReplicas := 0);
              && w' == w.(templates := w.templates[k := WithStatus(t, idle, o.normal.statusOk)])
              && AgentPart(w, agents, k, o).agents == agents
            case Proceed(_, _) =>
              var out := VmPass(w.vms, w.held, k, t.spec, StartStatus(t, o.normal.course), o.normal.vm);
              var part := AgentsOf(out, agents, k, t.spec, o);
              var status := if out.ok then Relinked(out.status, AgentNames(part.vmStatus)) else out.status;
              && w' == World(out.vms, out.held, w.templates[k := WithStatus(t, status, o.normal.statusOk)])
              && AgentPart(w, agents, k, o).agents == part.agents
  {
    hide VmPass, AgentsOf, Relinked, AgentNames, WithStatus;
    assert w.templates[k := w.templates[k]] == w.templates;
  }

  /** Putting the finalizer on first makes no difference to the pass; failing to ends it. */
  lemma FinalizerFirst(w: World, agents: map<string, Agent>, k: Key, o: PassOracle)
    requires k in w.templates
    ensures var t := w.templates[k];
            var w' := w.(templates := w.templates[k := t.(finalizer := true)]);
            if t.finalizer || o.normal.finalizerOk then
              && Apply(w', PassEvent(w', agents, k, o)) == Apply(w, PassEvent(w, agents, k, o))
              && AgentPart(w', agents, k, o) == AgentPart(w, agents, k, o)
            else Apply(w, PassEvent(w, agents, k, o)) == w && AgentPart(w, agents, k, o).agents == agents
  {
    hide VmPass, AgentsOf, Relinked, AgentNames, StartStatus, WithStatus;
    StartIgnoresFinalizer(w.templates[k], o.normal.course);
  }

  lemma StartIgnoresFinalizer(t: Template, course: Course)
    ensures course.Proceed? ==> StartStatus(t.(finalizer := true), course) == StartStatus(t, course)
  {
  }

  datatype RequestOracle = RequestOracle(
    getFails: bool, agentFound: bool, deletion: DeleteOracle, pass: PassOracle, finalizer: FinalizerOracle)

  /** The Agents that a template's pass looks at. */
  function AgentsFor(w: World, namespaces: map<string, map<string, Agent>>, k: Key, o: PassOracle): map<string, Agent>
    requires k in w.templates
  {
    In(namespaces, AgentNamespace(k, w.templates[k].spec, o.clusters))
  }

  /** The stored Agents after a template's pass. */
  ghost predicate PassAgents(w: World, was: map<string, map<string, Agent>>, now: map<string, map<string, Agent>>,
                             k: Key, o: PassOracle)
    requires k in w.templates
  {
    Changed(was, now, AgentNamespace(k, w.templates[k].spec, o.clusters),
            AgentPart(w, AgentsFor(w, was, k, o), k, o).agents)
  }

  /** The Agents are processed exactly if the pass over the VMs returned no error and they could be listed. */
  lemma AgentsAfterPass(w: World, agents: map<string, Agent>, k: Key, o: PassOracle)
    requires k in w.templates
    ensures var t, course := w.templates[k], o.normal.course;
            if course.Proceed? && (t.finalizer || o.normal.finalizerOk) then
              var requested := if course.rewritten then t.status.desiredReplicas else course.desired;
              var out := VmPass(w.vms, w.held, k, t.spec, t.status.(desiredReplicas := requested), o.normal.vm);
              if out.ok && o.listed.Some? then
                var part := AgentsPass(agents, o.listed.value, k, t.spec, out.status.vmStatus, o.agents);
                AgentPart(w, agents, k, o) == part
              else AgentPart(w, agents, k, o) == AgentsOutcome(agents, out.status.vmStatus)
            else AgentPart(w, agents, k, o).agents == agents
  {
    hide VmPass, AgentsPass;
    var t := w.templates[k];
    if o.normal.course.Proceed? {
      assert StartStatus(t, o.normal.course) ==
             t.status.(desiredReplicas := StartStatus(t, o.normal.course).desiredReplicas);
    }
    NoAgentsListed(agents, k, t.spec, o.agents);
  }

  /** The links that the pass over the Agents records are stored with the status. */
  lemma LinksAreStored(w: World, agents: map<string, Agent>, k: Key, o: PassOracle)
    requires k in w.templates && (w.templates[k].finalizer || o.normal.finalizerOk)
    requires o.normal.course.Proceed? && o.normal.statusOk && o.listed.Some?
    ensures var t := w.templates[k];
            var out := VmPass(w.vms, w.held, k, t.spec, StartStatus(t, o.normal.course), o.normal.vm);
            var w' := Apply(w, PassEvent(w, agents, k, o));
            out.ok ==>
              && k in w'.templates
              && w'.templates[k].status.vmStatus ==
                 AgentsPass(agents, o.listed.value, k, t.spec, out.status.vmStatus, o.agents).vmStatus
  {
    var t := w.templates[k];
    var out := VmPass(w.vms, w.held, k, t.spec, StartStatus(t, o.normal.course), o.normal.vm);
    AgentsPassRelinks(agents, o.listed.value, k, t.spec, out.status.vmStatus, o.agents);
    RelinkedIs(out.status, AgentsPass(agents, o.listed.value, k, t.spec, out.status.vmStatus, o.agents).vmStatus);
    hide VmPass, AgentsPass, Relinked, AgentNames, StartStatus;
  }

  lemma NoAgentsListed(agents: map<string, Agent>, k: Key, spec: Spec, os: seq<AgentOracle>)
    ensures forall vs :: AgentsPass(agents, [], k, spec, vs, os) == AgentsOutcome(agents, vs)
  {
  }

  /** The request as the source dispatches it. `pool` is the healthy NodePool that the pass finds, if it does. */
  method Reconcile(store: TemplateStore, vc: VCenter, secrets: SecretStore, agentStore: AgentStore,
                   pool: Option<NodePool>, k: Key, o: RequestOracle)
    requires k in store.templates ==>
               var spec := store.templates[k].spec;
               && ValidPlan(o.pass.normal.vm.plan, k, spec) && ValidPlan(o.deletion.vm.plan, k, spec)
               && Plain(Prefix(k, spec)) && (pool.Some? ==> spec.nodePoolRef.Some?)
    requires |vc.vms| <= MAX_INT32
    modifies store, vc, secrets, agentStore, if pool.Some? then {pool.value} else {}
    // a failed read: nothing
    ensures o.getFails ==>
              && vc.vms == old(vc.vms) && secrets.held == old(secrets.held) && store.templates == old(store.templates)
              && agentStore.namespaces == old(agentStore.namespaces)
    // a template that is being deleted
    ensures !o.getFails && k in old(store.templates) && old(store.templates)[k].deleting ==>
              && World(vc.vms, secrets.held, store.templates) ==
                 Apply(World(old(vc.vms), old(secrets.held), old(store.templates)), Event.DeleteTemplate(k, o.deletion))
              && agentStore.namespaces == old(agentStore.namespaces)
    // a template that is not
    ensures !o.getFails && k in old(store.templates) && !old(store.templates)[k].deleting ==>
              var w := World(old(vc.vms), old(secrets.held), old(store.templates));
              var agents := AgentsFor(w, old(agentStore.namespaces), k, o.pass);
              && World(vc.vms, secrets.held, store.templates) == Apply(w, PassEvent(w, agents, k, o.pass))
              && PassAgents(w, old(agentStore.namespaces), agentStore.namespaces, k, o.pass)
    // no such template: an Agent of that name in that namespace, if there is one
    ensures !o.getFails && k !in old(store.templates) ==>
              var w := World(old(vc.vms), old(secrets.held), old(store.templates));
              var agents := In(old(agentStore.namespaces), k.namespace);
              if o.agentFound && k.name in agents then
                var a := agents[k.name];
                var template := Known(w, TemplateKey(a, k.namespace));
                var released := Finalize(w.vms, a, k.namespace, template, o.finalizer).released;
                && World(vc.vms, secrets.held, store.templates) ==
                   Apply(w, Event.ReleaseAgent(a, k.namespace, o.finalizer))
                && Changed(old(agentStore.namespaces), agentStore.namespaces, k.namespace,
                           if released then Store(agents, k.name, AgentRuns.Released(a)) else agents)
              else
                && World(vc.vms, secrets.held, store.templates) == w
                && agentStore.namespaces == old(agentStore.namespaces)
  {
    hide DeletePass, ValidPlan, Plain, Prefix, VmPass, NormalPass, AgentsPass, Finalize, AgentNames;
    if o.getFails {
      return;
    }
    if k !in store.templates {
      var agents := In(agentStore.namespaces, k.namespace);
      if o.agentFound && k.name in agents {
        var agent := agents[k.name];
        var released := ReconcileAgentFinalizer(store, vc, agent, k.namespace, o.finalizer);
        if released {
          agentStore.namespaces := agentStore.namespaces[
            k.namespace := Store(agents, k.name, AgentRuns.Released(agent))];
        }
      }
      return;
    }
    if store.templates[k].deleting {
      ReconcileDelete(store, vc, secrets, k, o.deletion);
    } else {
      ReconcileLive(store, vc, secrets, agentStore, pool, k, o.pass);
    }
  }

  /** The finalizer, then reconcileNormal. */
  method ReconcileLive(store: TemplateStore, vc: VCenter, secrets: SecretStore, agentStore: AgentStore,
                       pool: Option<NodePool>, k: Key, o: PassOracle)
    requires k in store.templates
    requires var spec := store.templates[k].spec;
             ValidPlan(o.normal.vm.plan, k, spec) && Plain(Prefix(k, spec)) && (pool.Some? ==> spec.nodePoolRef.Some?)
    requires |vc.vms| <= MAX_INT32
    modifies store, vc, secrets, agentStore, if pool.Some? then {pool.value} else {}
    ensures var w := World(old(vc.vms), old(secrets.held), old(store.templates));
            var agents := AgentsFor(w, old(agentStore.namespaces), k, o);
            && World(vc.vms, secrets.held, store.templates) == Apply(w, PassEvent(w, agents, k, o))
            && PassAgents(w, old(agentStore.namespaces), agentStore.namespaces, k, o)
            && (pool.Some? ==>
                  var labels, t := old(pool.value.matchLabels), w.templates[k];
                  pool.value.matchLabels ==
                  if t.finalizer || o.normal.finalizerOk then EnsuredLabels(labels, t.spec, o.poolOk) else labels)
  {
    hide ValidPlan, Plain, Prefix, Apply, PassEvent, AgentPart, EnsuredLabels;
    ghost var w := World(vc.vms, secrets.held, store.templates);
    FinalizerFirst(w, AgentsFor(w, agentStore.namespaces, k, o), k, o);
    var stored := store.templates[k];
    assert stored.finalizer ==> store.templates == store.templates[k := stored.(finalizer := true)];
    if !stored.finalizer {
      if !o.normal.finalizerOk {
        return;
      }
      store.templates := store.templates[k := stored.(finalizer := true)];
    }
    ReconcileNormal(store, vc, secrets, agentStore, pool, k, o);
  }

  method ReconcileNormal(store: TemplateStore, vc: VCenter, secrets: SecretStore, agentStore: AgentStore,
                         pool: Option<NodePool>, k: Key, o: PassOracle)
    requires k in store.templates && store.templates[k].finalizer
    requires var spec := store.templates[k].spec;
             ValidPlan(o.normal.vm.plan, k, spec) && Plain(Prefix(k, spec)) && (pool.Some? ==> spec.nodePoolRef.Some?)
    requires |vc.vms| <= MAX_INT32
    modifies store, vc, secrets, agentStore, if pool.Some? then {pool.value} else {}
    ensures var w := World(old(vc.vms), old(secrets.held), old(store.templates));
            var agents := AgentsFor(w, old(agentStore.namespaces), k, o);
            && World(vc.vms, secrets.held, store.templates) == Apply(w, PassEvent(w, agents, k, o))
            && PassAgents(w, old(agentStore.namespaces), agentStore.namespaces, k, o)
            && (pool.Some? ==>
                  pool.value.matchLabels == EnsuredLabels(old(pool.value.matchLabels), w.templates[k].spec, o.poolOk))
  {
    hide VmPass, ValidPlan, Plain, Prefix, AgentsOf, Relinked, AgentNames, EnsuredLabels, Apply, PassEvent, AgentPart;
    ghost var w := World(vc.vms, secrets.held, store.templates);
    PassByCourse(w, AgentsFor(w, agentStore.namespaces, k, o), k, o);
    var stored, course := store.templates[k], o.normal.course;
    assert store.templates == store.templates[k := stored];
    if pool.Some? {
      pool.value.EnsureMatchLabels(stored.spec, o.poolOk);
    }
    if course.Unreachable? {
      return;
    }
    var t := new TemplateObject(k, stored);
    if course.NoNodePool? {
      t.status := t.status.(desiredReplicas := 0);
    } else {
      if !course.rewritten {
        t.status := t.status.(desiredReplicas := course.desired);
      }
      ReconcileFleet(t, vc, secrets, agentStore, o);
    }
    if o.normal.statusOk {
      store.templates := store.templates[k := stored.(status := t.status)];
    }
  }

  /** reconcileVMs and, if it returns no error, reconcileAgents. */
  method ReconcileFleet(t: TemplateObject, vc: VCenter, secrets: SecretStore, agentStore: AgentStore, o: PassOracle)
    requires ValidPlan(o.normal.vm.plan, t.key, t.spec) && Plain(Prefix(t.key, t.spec)) && |vc.vms| <= MAX_INT32
    modifies t, vc, secrets, agentStore
    ensures var out := VmPass(old(vc.vms), old(secrets.held), t.key, t.spec, old(t.status), o.normal.vm);
            var namespace := AgentNamespace(t.key, t.spec, o.clusters);
            var part := AgentsOf(out, In(old(agentStore.namespaces), namespace), t.key, t.spec, o);
            && vc.vms == out.vms && secrets.held == out.held
            && Changed(old(agentStore.namespaces), agentStore.namespaces, namespace, part.agents)
            && t.status == if out.ok then Relinked(out.status, AgentNames(part.vmStatus)) else out.status
  {
    hide VmPass, ValidPlan, Plain, Prefix, AgentsPass, Relinked, AgentNames;
    var ok := ReconcileVMs(t, vc, secrets, o.normal.vm);
    ghost var rebuilt := t.status;
    if ok {
      var _ := ReconcileAgents(t, agentStore, o.clusters, o.listed, o.agents);
      ghost var agents := In(old(agentStore.namespaces), AgentNamespace(t.key, t.spec, o.clusters));
      AgentsPassRelinks(agents, Listing(o.listed), t.key, t.spec, rebuilt.vmStatus, o.agents);
      RelinkedIs(rebuilt, t.status.vmStatus);
    }
  }
}
