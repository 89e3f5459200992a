/**
 * Whom the stored links name, over all runs: an Agent that an earlier pass listed and whose UUID or
 * serial is that of the entry. This is what makes the Agent finalizer take out the Agent's own machine.
 */
module LinkRuns {
  import opened Wrappers
  import opened GoFmt
  import opened Naming
  import opened Tags
  import opened Resources
  import opened Fleet
  import opened VmReconcile
  import opened Agents
  import opened Lifecycle
  import opened Links
  import opened FleetRuns
  import opened Controller

  /** Some Agent of that name, as it was listed, is the machine of the entry. */
  ghost predicate Warrants(seen: set<Agent>, v: VMStatus) {
    exists a :: a in seen && a.name == v.agentName && SameMachine(a, v)
  }

  ghost predicate RightLinks(vs: seq<VMStatus>, seen: set<Agent>) {
    forall v :: v in vs && v.agentName != "" ==> Warrants(seen, v)
  }

  ghost predicate AllRight(w: World, seen: set<Agent>) {
    forall k :: k in w.templates ==> RightLinks(w.templates[k].status.vmStatus, seen)
  }

  /** The Agents that a request for a template finds stored, and how its calls turn out. */
  datatype Input = Input(agents: map<string, Agent>, pass: PassOracle)

  /** Every pass of the run records the links that its Agent part makes. */
  ghost predicate PassesAreReal(ws: seq<World>, es: seq<Event>, ins: seq<Input>)
    requires |ws| == |es| + 1
  {
    && |ins| == |es|
    && forall i :: 0 <= i < |es| && es[i].ReconcileTemplate? && es[i].k in ws[i].templates ==>
         es[i] == PassEvent(ws[i], ins[i].agents, es[i].k, ins[i].pass)
  }

  function ListedBy(ins: seq<Input>): set<Agent> {
    if ins == [] then {}
    else
      var last := ins[|ins| - 1];
      ListedBy(ins[..|ins| - 1]) + set a | a in Listing(last.pass.listed)
  }

  /* ---------- one pass ---------- */

  lemma RightWithMore(vs: seq<VMStatus>, seen: set<Agent>, more: set<Agent>)
    requires RightLinks(vs, seen)
    ensures RightLinks(vs, seen + more)
  {
    hide SameMachine;
    forall v | v in vs && v.agentName != "" ensures Warrants(seen + more, v) {
      var a :| a in seen && a.name == v.agentName && SameMachine(a, v);
      assert a in seen + more;
    }
  }

  lemma NoLinksAreRight(vs: seq<VMStatus>, seen: set<Agent>)
    requires NoLinks(vs)
    ensures RightLinks(vs, seen)
  {
  }

  lemma AgentsPassIsRight(agents: map<string, Agent>, listed: seq<Agent>, k: Key, spec: Spec, vs: seq<VMStatus>,
                          os: seq<AgentOracle>, seen: set<Agent>)
    requires RightLinks(vs, seen)
    ensures RightLinks(AgentsPass(agents, listed, k, spec, vs, os).vmStatus, seen + (set a | a in listed))
  {
    PassLinks(agents, listed, k, spec, vs, os);
    var ws := AgentsPass(agents, listed, k, spec, vs, os).vmStatus;
    var flags := WrittenFlags(agents, listed, k, spec, vs, os);
    var all := seen + set a | a in listed;
    hide AgentsPass, WrittenFlags, SameMachine;
    forall w | w in ws && w.agentName != "" ensures Warrants(all, w) {
      var i :| 0 <= i < |ws| && ws[i] == w;
      assert NameIs(listed, flags, vs, i, ws[i].agentName);
      SameIds(vs[i], w);
      if j :| Claims(listed, flags, vs, j, i) && w.agentName == listed[j].name {
        ClaimInRange(listed, flags, vs, j, i);
        assert listed[j] in listed && SameMachine(listed[j], vs[i]);
      } else {
        assert vs[i] in vs && Warrants(seen, vs[i]);
        var a :| a in seen && a.name == w.agentName && SameMachine(a, vs[i]);
        assert a in all;
      }
    }
  }

  lemma SameIds(v: VMStatus, w: VMStatus)
    ensures w == v.(agentName := w.agentName) ==> forall a :: SameMachine(a, v) == SameMachine(a, w)
  {
  }

  /** A pass over the VMs keeps the entries, or rebuilds them without links. */
  lemma VmPassIsRight(vms: seq<VM>, held: set<SecretRef>, k: Key, spec: Spec, status: Status, o: VmOracle,
                      seen: set<Agent>)
    requires RightLinks(status.vmStatus, seen)
    ensures RightLinks(VmPass(vms, held, k, spec, status, o).status.vmStatus, seen)
  {
    var out := VmPass(vms, held, k, spec, status, o);
    if out.ok {
      OkPassLinks(vms, held, k, spec, status, o);
      hide VmPass, RightLinks, NoLinks, QuotaStops, Rebuilds;
      if NoLinks(out.status.vmStatus) { NoLinksAreRight(out.status.vmStatus, seen); }
    } else {
      FailedPassKeepsEntries(vms, held, k, spec, status, o);
    }
  }

  lemma FailedPassKeepsEntries(vms: seq<VM>, held: set<SecretRef>, k: Key, spec: Spec, status: Status, o: VmOracle)
    requires !VmPass(vms, held, k, spec, status, o).ok
    ensures VmPass(vms, held, k, spec, status, o).status.vmStatus == status.vmStatus
  {
    hide Current, NewVMs, HeldAfter, Rebuilt, Scaling, QuotaReached;
  }

  lemma RightReconcile(w: World, agents: map<string, Agent>, k: Key, o: PassOracle, seen: set<Agent>)
    requires k in w.templates && AllRight(w, seen)
    ensures AllRight(Apply(w, PassEvent(w, agents, k, o)), seen + (set a | a in Listing(o.listed)))
  {
    hide RightLinks, VmPass, AgentsPass, AgentNames, Relinked;
    var t, more := w.templates[k], set a | a in Listing(o.listed);
    var w' := Apply(w, PassEvent(w, agents, k, o));
    forall j | j in w.templates ensures RightLinks(w.templates[j].status.vmStatus, seen + more) {
      RightWithMore(w.templates[j].status.vmStatus, seen, more);
    }
    if o.normal.course.Proceed? {
      var start := StartStatus(t, o.normal.course);
      var out := VmPass(w.vms, w.held, k, t.spec, start, o.normal.vm);
      VmPassIsRight(w.vms, w.held, k, t.spec, start, o.normal.vm, seen);
      RightWithMore(out.status.vmStatus, seen, more);
      AgentsPassIsRight(agents, Listing(o.listed), k, t.spec, out.status.vmStatus, o.agents, seen);
      AgentsPassRelinks(agents, Listing(o.listed), k, t.spec, out.status.vmStatus, o.agents);
      RelinkedIs(out.status, AgentsPass(agents, Listing(o.listed), k, t.spec, out.status.vmStatus, o.agents).vmStatus);
    }
  }

  lemma RightDelete(w: World, k: Key, o: DeleteOracle, seen: set<Agent>)
    requires k in w.templates && AllRight(w, seen)
    ensures AllRight(Apply(w, Event.DeleteTemplate(k, o)), seen)
  {
    var t := w.templates[k];
    var start := t.status.(desiredReplicas := 0);
    assert RightLinks(start.vmStatus, seen);
    VmPassIsRight(w.vms, w.held, k, t.spec, start, o.vm, seen);
    hide VmPass, RightLinks, SecretOf;
  }

  lemma RightRelease(w: World, a: Agent, namespace: string, o: FinalizerOracle, seen: set<Agent>)
    requires AllRight(w, seen)
    ensures AllRight(Release(w, a, namespace, o), seen)
  {
    var k := TemplateKey(a, namespace);
    if k in w.templates {
      UnlinkedKeepsOthers(w.templates[k].status.vmStatus, a.name);
      assert RightLinks(w.templates[k].status.vmStatus, seen);
      assert RightLinks(Unlinked(w.templates[k].status.vmStatus, a.name), seen);
    }
    hide Unlinked, LinkedVM, AfterDestroy, Warrants, Lookup, RightLinks;
  }

  lemma RightStep(w: World, e: Event, inp: Input, seen: set<Agent>)
    requires AllRight(w, seen)
    requires e.ReconcileTemplate? && e.k in w.templates ==> e == PassEvent(w, inp.agents, e.k, inp.pass)
    ensures AllRight(Apply(w, e), seen + (set a | a in Listing(inp.pass.listed)))
  {
    hide RightLinks, NormalPass, DeletePass, Release, PassEvent, StartStatus;
    match e {
      case ReconcileTemplate(k, o) =>
        if k in w.templates {
          RightReconcile(w, inp.agents, k, inp.pass, seen);
        } else {
          AllRightWithMore(w, seen, set a | a in Listing(inp.pass.listed));
        }
      case DeleteTemplate(k, o) =>
        if k in w.templates { RightDelete(w, k, o, seen); }
        AllRightWithMore(Apply(w, e), seen, set a | a in Listing(inp.pass.listed));
      case ReleaseAgent(a, namespace, o) =>
        RightRelease(w, a, namespace, o, seen);
        AllRightWithMore(Apply(w, e), seen, set a | a in Listing(inp.pass.listed));
      case _ =>
        NoLinksAreRight([], seen);
        AllRightWithMore(Apply(w, e), seen, set a | a in Listing(inp.pass.listed));
    }
  }

  lemma AllRightWithMore(w: World, seen: set<Agent>, more: set<Agent>)
    requires AllRight(w, seen)
    ensures AllRight(w, seen + more)
  {
    hide RightLinks;
    forall k | k in w.templates ensures RightLinks(w.templates[k].status.vmStatus, seen + more) {
      RightWithMore(w.templates[k].status.vmStatus, seen, more);
    }
  }

  /** Over all runs, under every pattern of failures, stored links name Agents seen on that machine. */
  lemma {:induction false} LinksRightInAnyRun(ws: seq<World>, es: seq<Event>, ins: seq<Input>, n: nat)
    requires IsRun(ws, es) && PassesAreReal(ws, es, ins) && n <= |es|
    requires AllRight(ws[0], {})
    ensures AllRight(ws[n], ListedBy(ins[..n]))
  {
    if n > 0 {
      LinksRightInAnyRun(ws, es, ins, n - 1);
      RightStep(ws[n - 1], es[n - 1], ins[n - 1], ListedBy(ins[..n - 1]));
      assert ins[..n][..n - 1] == ins[..n - 1];
      hide Apply, Enabled, AllRight, PassEvent;
    }
  }

  lemma {:induction false} LinkedVMIs(vs: seq<VMStatus>, agentName: string)
    requires LinkedVM(vs, agentName).Some?
    ensures exists v :: v in vs && v.agentName == agentName && v.name == LinkedVM(vs, agentName).value
  {
    if vs[0].agentName != agentName {
      LinkedVMIs(vs[1..], agentName);
    } else {
      assert vs[0] in vs;
    }
  }

  /**
   * Hence a finalization that finds the template destroys, if anything, a VM that carries the template's
   * tag and the name of an entry whose machine an Agent of this name was listed with.
   */
  lemma FinalizeHitsSeenMachine(
    ws: seq<World>, es: seq<Event>, ins: seq<Input>, n: nat, a: Agent, namespace: string, o: FinalizerOracle)
    requires IsRun(ws, es) && PassesAreReal(ws, es, ins) && n <= |es| && AllRight(ws[0], {})
    requires TemplateKey(a, namespace) in ws[n].templates && a.name != ""
    requires Enabled(ws[n], ReleaseAgent(a, namespace, o))
    ensures var k := TemplateKey(a, namespace);
            |Release(ws[n], a, namespace, o).vms| < |ws[n].vms| ==>
              && o.found.Some? && TaggedFor(o.found.value, k)
              && exists v :: v in ws[n].templates[k].status.vmStatus && v.name == o.found.value.name
                             && v.agentName == a.name && Warrants(ListedBy(ins[..n]), v)
  {
    var k := TemplateKey(a, namespace);
    LinksRightInAnyRun(ws, es, ins, n);
    var t := ws[n].templates[k];
    assert RightLinks(t.status.vmStatus, ListedBy(ins[..n]));
    if |Release(ws[n], a, namespace, o).vms| < |ws[n].vms| {
      FinalizeDestroysIff(ws[n].vms, a, namespace, t, o);
      LinkedVMIs(t.status.vmStatus, a.name);
    }
    hide IsRun, PassesAreReal, TaggedFor, LinkedVM, Unlinked, Warrants, Removed, SwitchedOff, Apply, ListedBy;
  }
}
