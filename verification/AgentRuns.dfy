/**
 * All runs of the controller against the Agents: passes of any templates, one at a time, over the
 * Agents as they were listed, with users and the other controllers acting between any two of them.
 */
module AgentRuns {
  import opened Wrappers
  import opened Tags
  import opened Resources
  import opened Agents
  import opened AgentLaws
  import Lifecycle

  /** One reconcileAgents call: for which template, over which VM status. */
  datatype Pass = Pass(number: nat, k: Key, spec: Spec, vms: seq<VMStatus>)

  /** What a pass did with one listed Agent. */
  datatype LogEntry = LogEntry(pass: Pass, copy: Agent, outcome: Outcome)

  /** `pending` are the listed copies that the current pass still has to go through. */
  datatype AgentWorld = AgentWorld(
    agents: map<string, Agent>, pass: Option<Pass>, pending: seq<Agent>, log: seq<LogEntry>)

  datatype AgentEvent =
    | StartPass(pass: Pass, listed: seq<Agent>)
    | ProcessNext(o: AgentOracle)
    | ReleaseFinalizer(name: string)
    | AgentAppears(agent: Agent)
    | AgentChanges(agent: Agent)
    | AgentGone(name: string)

  /** The fields that only the controller writes. */
  datatype Marks = Marks(
    finalized: bool, managedBy: string, pool: string, binding: string, hostname: string,
    note: string, datacenter: string, folder: string, secret: string, secretNamespace: string)

  function MarksOf(a: Agent): Marks {
    Marks(AgentCleanup in a.finalizers,
          Lookup(a.labels, ManagedBy), Lookup(a.labels, NodePoolName), Lookup(a.labels, Binding), a.hostname,
          Lookup(a.annotations, VMNameNote), Lookup(a.annotations, DatacenterNote), Lookup(a.annotations, FolderNote),
          Lookup(a.annotations, CredentialSecretNote), Lookup(a.annotations, CredentialNamespaceNote))
  }

  predicate Unmarked(a: Agent) {
    MarksOf(a) == Marks(false, "", "", "", a.hostname, "", "", "", "", "")
  }

  predicate IsListing(w: AgentWorld, listed: seq<Agent>) {
    && (forall i :: 0 <= i < |listed| ==> listed[i].name in w.agents && w.agents[listed[i].name] == listed[i])
    && (forall i, j :: 0 <= i < j < |listed| ==> listed[i].name != listed[j].name)
  }

  function LastPass(w: AgentWorld): nat {
    if w.pass.Some? then w.pass.value.number else 0
  }

  /**
   * One worker: a pass or a finalizer starts only when no pass is under way. Nobody else writes the
   * marks, and a new Agent has a uid of its own; its name may be that of one that is gone.
   */
  predicate CanHappen(w: AgentWorld, e: AgentEvent) {
    match e
    case StartPass(pass, listed) =>
      w.pending == [] && pass.number == LastPass(w) + 1 && IsListing(w, listed) && Reconciles(pass.spec)
    case ProcessNext(o) => w.pending != [] && w.pass.Some?
    case ReleaseFinalizer(name) => w.pending == [] && name in w.agents && w.agents[name].deleting
    case AgentAppears(a) =>
      && a.name !in w.agents && a.name != "" && Unmarked(a)
      && (forall i :: 0 <= i < |w.pending| ==> w.pending[i].uid != a.uid)
      && (forall i :: 0 <= i < |w.log| ==> w.log[i].copy.uid != a.uid)
    case AgentChanges(a) =>
      a.name in w.agents && a.uid == w.agents[a.name].uid && MarksOf(a) == MarksOf(w.agents[a.name])
      && (w.agents[a.name].deleting ==> a.deleting)
    case AgentGone(name) => name in w.agents && AgentCleanup !in w.agents[name].finalizers
  }

  function Result(w: AgentWorld, o: AgentOracle): Processed
    requires w.pending != [] && w.pass.Some?
  {
    var a, pass := w.pending[0], w.pass.value;
    Process(Stored(w.agents, a.name), a, pass.k, pass.spec, pass.vms, o)
  }

  /** reconcileAgentFinalizer as the Agent sees it: the finalizer goes, and with the last one the Agent. */
  function Released(a: Agent): Option<Agent> {
    var left := a.finalizers - {AgentCleanup};
    if left == {} then None else Some(a.(finalizers := left))
  }

  /** Only the one finalizer goes; the Agent goes with it exactly if it held no other. */
  lemma ReleasedKeepsOthers(a: Agent)
    ensures Released(a).None? <==> forall f :: f in a.finalizers ==> f == AgentCleanup
    ensures Released(a).Some? ==>
              var b := Released(a).value;
              && b == a.(finalizers := b.finalizers)
              && forall f :: f in b.finalizers <==> f in a.finalizers && f != AgentCleanup
  {
    var left := a.finalizers - {AgentCleanup};
    if left != {} {
      var f :| f in left;
      assert f in a.finalizers && f != AgentCleanup;
    } else {
      forall f | f in a.finalizers ensures f == AgentCleanup {
        assert f !in left;
      }
    }
  }

  function After(w: AgentWorld, e: AgentEvent): AgentWorld {
    match e
    case StartPass(pass, listed) => w.(pass := Some(pass), pending := listed)
    case ProcessNext(o) =>
      if w.pending == [] || w.pass.None? then w
      else
        var a, r := w.pending[0], Result(w, o);
        AgentWorld(Store(w.agents, a.name, r.stored), w.pass, w.pending[1..],
                   w.log + [LogEntry(w.pass.value, a, r.outcome)])
    case ReleaseFinalizer(name) =>
      if name in w.agents then w.(agents := Store(w.agents, name, Released(w.agents[name]))) else w
    case AgentAppears(a) => w.(agents := w.agents[a.name := a])
    case AgentChanges(a) => w.(agents := w.agents[a.name := a])
    case AgentGone(name) => w.(agents := w.agents - {name})
  }

  predicate Initial(w: AgentWorld) {
    && w.pass.None? && w.pending == [] && w.log == []
    && forall name :: name in w.agents ==> w.agents[name].name == name && name != "" && Unmarked(w.agents[name])
  }

  predicate IsAgentRun(ws: seq<AgentWorld>, es: seq<AgentEvent>) {
    && |ws| == |es| + 1 && Initial(ws[0])
    && forall i :: 0 <= i < |es| ==> CanHappen(ws[i], es[i]) && ws[i + 1] == After(ws[i], es[i])
  }

  lemma AgentRunStep(ws: seq<AgentWorld>, es: seq<AgentEvent>, n: nat)
    requires IsAgentRun(ws, es) && 0 < n <= |es|
    ensures |ws| == |es| + 1 && CanHappen(ws[n - 1], es[n - 1]) && ws[n] == After(ws[n - 1], es[n - 1])
  {
    hide Initial, CanHappen, After;
  }

  /* ---------- copies and what is stored agree on the marks ---------- */

  /**
   * What a listed copy still says: the marks, if its Agent is still there. Once the copy carries the
   * cleanup finalizer, it is: nobody but the controller takes that off, so the name is not free.
   */
  predicate CopyCurrent(w: AgentWorld, c: Agent) {
    && c.name != ""
    && (c.name in w.agents && w.agents[c.name].uid == c.uid ==> MarksOf(w.agents[c.name]) == MarksOf(c))
    && (AgentCleanup in c.finalizers ==> c.name in w.agents && w.agents[c.name].uid == c.uid)
  }

  predicate Consistent(w: AgentWorld) {
    && (forall name :: name in w.agents ==> w.agents[name].name == name && name != "")
    && (forall i :: 0 <= i < |w.pending| ==> CopyCurrent(w, w.pending[i]))
    && (forall i, j :: 0 <= i < j < |w.pending| ==> w.pending[i].name != w.pending[j].name)
  }

  /** Processing keeps name and identity, and an Agent that carries a finalizer stays. */
  lemma ProcessKeepsIdentity(p: Option<Agent>, a: Agent, k: Key, spec: Spec, vs: seq<VMStatus>, o: AgentOracle)
    requires p.Some? ==> p.value.name == a.name
    ensures var r := Process(p, a, k, spec, vs, o);
            && (r.stored.Some? ==> p.Some? && r.stored.value.name == a.name && r.stored.value.uid == p.value.uid)
            && (r.outcome.Written? ==> p == Some(a))
  {
    hide IsMatch, Decide, NeedsDress, MatchedName, DressedLabels, CleanupNotes, NotesChange, NeedsClaim;
  }

  lemma ConsistentProcess(w: AgentWorld, o: AgentOracle)
    requires Consistent(w) && CanHappen(w, ProcessNext(o))
    ensures Consistent(After(w, ProcessNext(o)))
  {
    var a, pass := w.pending[0], w.pass.value;
    assert CopyCurrent(w, a);
    ProcessKeepsIdentity(Stored(w.agents, a.name), a, pass.k, pass.spec, pass.vms, o);
    var w' := After(w, ProcessNext(o));
    hide Process, MarksOf;
    forall i | 0 <= i < |w'.pending| ensures CopyCurrent(w', w'.pending[i]) {
      assert w'.pending[i] == w.pending[i + 1];
      assert CopyCurrent(w, w.pending[i + 1]);
      assert w.pending[0].name != w.pending[i + 1].name;
    }
  }

  lemma SameFinalizer(a: Agent, b: Agent)
    ensures MarksOf(a) == MarksOf(b) ==> (AgentCleanup in a.finalizers <==> AgentCleanup in b.finalizers)
  {
  }

  lemma ConsistentStep(w: AgentWorld, e: AgentEvent)
    requires Consistent(w) && CanHappen(w, e)
    ensures Consistent(After(w, e))
  {
    hide MarksOf;
    match e {
      case ProcessNext(o) => ConsistentProcess(w, o);
      case StartPass(_, listed) =>
        assert forall i :: 0 <= i < |listed| ==> CopyCurrent(w, listed[i]);
      case ReleaseFinalizer(_) =>
      case AgentGone(name) =>
        forall i | 0 <= i < |w.pending| ensures CopyCurrent(After(w, e), w.pending[i]) {
          assert CopyCurrent(w, w.pending[i]);
          SameFinalizer(w.agents[name], w.pending[i]);
        }
      case _ =>
        forall i | 0 <= i < |w.pending| ensures CopyCurrent(After(w, e), w.pending[i]) {
          assert CopyCurrent(w, w.pending[i]);
        }
    }
  }

  lemma {:induction false} ConsistentInAnyRun(ws: seq<AgentWorld>, es: seq<AgentEvent>, n: nat)
    requires IsAgentRun(ws, es) && n <= |es|
    ensures Consistent(ws[n])
  {
    hide *;
    if n > 0 {
      ConsistentInAnyRun(ws, es, n - 1);
      AgentRunStep(ws, es, n);
      ConsistentStep(ws[n - 1], es[n - 1]);
    } else {
      ConsistentAtFirst(ws, es);
    }
  }

  lemma ConsistentAtFirst(ws: seq<AgentWorld>, es: seq<AgentEvent>)
    requires IsAgentRun(ws, es)
    ensures |ws| > 0 && Consistent(ws[0])
  {
    hide CanHappen, After, MarksOf;
  }

  /* ---------- the binding label ---------- */

  /** Some pass with a NodePool before number `before` saw this very Agent bound, and wrote it down. */
  ghost predicate SeenBound(log: seq<LogEntry>, uid: nat, before: nat) {
    exists i :: 0 <= i < |log| && RecordsBound(log[i], uid) && log[i].pass.number < before
  }

  predicate RecordsBound(entry: LogEntry, uid: nat) {
    entry.copy.uid == uid && IsBound(entry.copy) && entry.pass.spec.nodePoolRef.Some? && entry.outcome.Written?
  }

  ghost predicate BindingExplained(a: Agent, log: seq<LogEntry>, before: nat) {
    Lookup(a.labels, Binding) != "" ==> SeenBound(log, a.uid, before)
  }

  /** Passes of selectors that leave the binding label alone. */
  predicate AllLeaveBinding(ws: seq<AgentWorld>, es: seq<AgentEvent>)
    requires |ws| == |es| + 1
  {
    forall i :: 0 <= i < |es| && es[i].ProcessNext? && ws[i].pass.Some? ==> LeavesBinding(ws[i].pass.value.spec)
  }

  /** A label on a stored Agent goes back to a pass so far, a label on a listed copy to an earlier one. */
  ghost predicate BindingsExplained(w: AgentWorld) {
    && (forall name :: name in w.agents ==> BindingExplained(w.agents[name], w.log, LastPass(w) + 1))
    && (forall i :: 0 <= i < |w.pending| ==> BindingExplained(w.pending[i], w.log, LastPass(w)))
  }

  /** Processing sets the label only on an Agent it sees bound. */
  lemma ProcessBinding(p: Option<Agent>, a: Agent, k: Key, spec: Spec, vs: seq<VMStatus>, o: AgentOracle)
    requires LeavesBinding(spec)
    ensures var r := Process(p, a, k, spec, vs, o);
            r.stored.Some? && Lookup(r.stored.value.labels, Binding) != "" ==>
              || (p.Some? && Lookup(p.value.labels, Binding) != "")
              || (IsBound(a) && spec.nodePoolRef.Some? && r.outcome.Written?)
  {
    hide IsMatch, Decide, NeedsDress, MatchedName, DressedLabels, CleanupNotes, NotesChange;
    var c := Claimed(a, k);
    ClaimTakesOver(a, k, spec);
    DressedLabelRead(c, spec, Binding);
  }

  lemma SeenBoundGrows(log: seq<LogEntry>, more: seq<LogEntry>, uid: nat, before: nat, later: nat)
    requires SeenBound(log, uid, before) && before <= later
    ensures SeenBound(log + more, uid, later)
  {
    var i :| 0 <= i < |log| && RecordsBound(log[i], uid) && log[i].pass.number < before;
    assert (log + more)[i] == log[i];
  }

  lemma BindingProcess(w: AgentWorld, o: AgentOracle)
    requires Consistent(w) && BindingsExplained(w) && CanHappen(w, ProcessNext(o)) && LeavesBinding(w.pass.value.spec)
    ensures BindingsExplained(After(w, ProcessNext(o)))
  {
    var a, pass := w.pending[0], w.pass.value;
    var p := Stored(w.agents, a.name);
    assert CopyCurrent(w, a);
    assert BindingExplained(a, w.log, LastPass(w));
    ProcessBinding(p, a, pass.k, pass.spec, pass.vms, o);
    ProcessKeepsIdentity(p, a, pass.k, pass.spec, pass.vms, o);
    hide Process, SeenBound, Consistent;
    var w', entry := After(w, ProcessNext(o)), LogEntry(pass, a, Result(w, o).outcome);
    forall name | name in w'.agents ensures BindingExplained(w'.agents[name], w'.log, LastPass(w') + 1) {
      if name != a.name {
        assert BindingExplained(w.agents[name], w.log, LastPass(w) + 1);
        if SeenBound(w.log, w.agents[name].uid, LastPass(w) + 1) {
          SeenBoundGrows(w.log, [entry], w.agents[name].uid, LastPass(w) + 1, LastPass(w) + 1);
        }
      } else if p.Some? && Lookup(p.value.labels, Binding) != "" {
        assert BindingExplained(p.value, w.log, LastPass(w) + 1);
        SeenBoundGrows(w.log, [entry], p.value.uid, LastPass(w) + 1, LastPass(w) + 1);
      } else if RecordsBound(entry, a.uid) {
        JustSeenBound(w.log, entry, a.uid);
      }
    }
    forall i | 0 <= i < |w'.pending| ensures BindingExplained(w'.pending[i], w'.log, LastPass(w')) {
      assert w'.pending[i] == w.pending[i + 1];
      assert BindingExplained(w.pending[i + 1], w.log, LastPass(w));
      if SeenBound(w.log, w'.pending[i].uid, LastPass(w)) {
        SeenBoundGrows(w.log, [entry], w'.pending[i].uid, LastPass(w), LastPass(w));
      }
    }
  }

  lemma JustSeenBound(log: seq<LogEntry>, entry: LogEntry, uid: nat)
    requires RecordsBound(entry, uid)
    ensures SeenBound(log + [entry], uid, entry.pass.number + 1)
  {
    assert (log + [entry])[|log|] == entry;
  }

  lemma BindingStep(w: AgentWorld, e: AgentEvent)
    requires Consistent(w) && BindingsExplained(w) && CanHappen(w, e)
    requires e.ProcessNext? ==> LeavesBinding(w.pass.value.spec)
    ensures BindingsExplained(After(w, e))
  {
    hide SeenBound, Consistent;
    assert w.log + [] == w.log;
    var w' := After(w, e);
    match e {
      case ProcessNext(o) => BindingProcess(w, o);
      case StartPass(pass, listed) =>
        forall name | name in w.agents ensures BindingExplained(w.agents[name], w.log, LastPass(w') + 1) {
          assert BindingExplained(w.agents[name], w.log, LastPass(w) + 1);
          if SeenBound(w.log, w.agents[name].uid, LastPass(w) + 1) {
            SeenBoundGrows(w.log, [], w.agents[name].uid, LastPass(w) + 1, LastPass(w') + 1);
          }
        }
        forall i | 0 <= i < |listed| ensures BindingExplained(listed[i], w.log, LastPass(w')) {
          assert BindingExplained(w.agents[listed[i].name], w.log, LastPass(w) + 1);
        }
      case AgentChanges(a) => assert BindingExplained(w.agents[a.name], w.log, LastPass(w) + 1);
      case _ =>
    }
  }

  lemma {:induction false} BindingsExplainedInAnyRun(ws: seq<AgentWorld>, es: seq<AgentEvent>, n: nat)
    requires IsAgentRun(ws, es) && n <= |es|
    requires |ws| == |es| + 1 && AllLeaveBinding(ws, es)
    ensures BindingsExplained(ws[n])
  {
    hide *;
    if n > 0 {
      BindingsExplainedInAnyRun(ws, es, n - 1);
      ConsistentInAnyRun(ws, es, n - 1);
      AgentRunStep(ws, es, n);
      LeavesBindingAt(ws, es, n - 1);
      BindingStep(ws[n - 1], es[n - 1]);
    } else {
      NoBindingAtFirst(ws, es);
    }
  }

  lemma LeavesBindingAt(ws: seq<AgentWorld>, es: seq<AgentEvent>, i: nat)
    requires |ws| == |es| + 1 && AllLeaveBinding(ws, es) && i < |es| && CanHappen(ws[i], es[i])
    ensures es[i].ProcessNext? ==> ws[i].pass.Some? && LeavesBinding(ws[i].pass.value.spec)
  {
    hide LeavesBinding, IsListing, MarksOf;
  }

  lemma NoBindingAtFirst(ws: seq<AgentWorld>, es: seq<AgentEvent>)
    requires IsAgentRun(ws, es)
    ensures |ws| > 0 && BindingsExplained(ws[0])
  {
    hide CanHappen, After, SeenBound;
  }

  /* ---------- deletion safety ---------- */

  /** The step sends a delete request for the Agent at hand. */
  predicate DeletesAgent(w: AgentWorld, e: AgentEvent) {
    e.ProcessNext? && CanHappen(w, e) && Result(w, e.o).outcome.Deletion?
  }

  /**
   * What has to hold when an Agent is deleted: it was listed as unbinding or unbound; an earlier pass
   * with a NodePool saw it bound; what the request hits is that very Agent, though the request names no
   * uid; and what is stored carries the cleanup finalizer, this template's managed-by label and, outside
   * test mode, the label of the referenced pool.
   */
  ghost predicate Warranted(w: AgentWorld, e: AgentEvent)
    requires e.ProcessNext? && CanHappen(w, e)
  {
    var a, pass, target := w.pending[0], w.pass.value, Stored(w.agents, w.pending[0].name);
    && IsUnbindingOrUnbound(a)
    && SeenBound(w.log, a.uid, pass.number)
    && target.Some? && target.value.uid == a.uid && (NeedsClaim(a, pass.k) ==> target.value == a)
    && var before := if NeedsClaim(a, pass.k) then Claim(a, pass.k) else target.value;
    && AgentCleanup in before.finalizers
    && Lookup(before.labels, ManagedBy) == pass.k.name
    && (!pass.spec.testMode && pass.spec.nodePoolRef.Some? ==>
          Lookup(before.labels, NodePoolName) == pass.spec.nodePoolRef.value)
  }

  lemma DeletionIsWarranted(w: AgentWorld, e: AgentEvent)
    requires Consistent(w) && BindingsExplained(w) && DeletesAgent(w, e)
    ensures Warranted(w, e)
  {
    var a, pass := w.pending[0], w.pass.value;
    assert CopyCurrent(w, a);
    assert BindingExplained(a, w.log, LastPass(w));
    ClaimTakesOver(a, pass.k, pass.spec);
    hide IsMatch, NeedsDress, MatchedName, Dressed, SeenBound;
  }

  /** Deletion safety over all runs, under every pattern of failing updates. */
  lemma DeletionSafeInAnyRun(ws: seq<AgentWorld>, es: seq<AgentEvent>, n: nat)
    requires IsAgentRun(ws, es) && n < |es|
    requires |ws| == |es| + 1 && AllLeaveBinding(ws, es)
    requires DeletesAgent(ws[n], es[n])
    ensures Warranted(ws[n], es[n])
  {
    ConsistentInAnyRun(ws, es, n);
    BindingsExplainedInAnyRun(ws, es, n);
    DeletionIsWarranted(ws[n], es[n]);
    hide *;
  }

  /* ---------- exactly which templates are safe ---------- */

  /** A run in which every pass is for the one template. */
  predicate IsAgentRunOf(ws: seq<AgentWorld>, es: seq<AgentEvent>, k: Key, spec: Spec) {
    && IsAgentRun(ws, es)
    && forall i :: 0 <= i < |ws| && ws[i].pass.Some? ==> ws[i].pass.value.k == k && ws[i].pass.value.spec == spec
  }

  ghost predicate AllDeletionsWarranted(k: Key, spec: Spec) {
    forall ws, es, n: nat :: IsAgentRunOf(ws, es, k, spec) && n < |es| && DeletesAgent(ws[n], es[n]) ==>
                               Warranted(ws[n], es[n])
  }

  lemma UnsafeRun(k: Key, spec: Spec) returns (ws: seq<AgentWorld>, es: seq<AgentEvent>)
    requires !LeavesBinding(spec) && Reconciles(spec) && k.name != ""
    ensures |es| == 5 && IsAgentRunOf(ws, es, k, spec)
    ensures DeletesAgent(ws[4], es[4]) && !Warranted(ws[4], es[4])
  {
    NeverBoundIsDeleted(k, spec);
    var a, d := NEVER_BOUND, Dressed(Claim(NEVER_BOUND, k), k, spec, "vm");
    assert d.name == "agent" && d.uid == 1 && a.name == "agent";
    var first, second := Pass(1, k, spec, ONE_VM), Pass(2, k, spec, ONE_VM);
    FirstSteps(a, first);
    hide *;
    var w0 := AgentWorld(map[], None, [], []);
    var w1 := AgentWorld(map["agent" := a], None, [], []);
    var w2 := AgentWorld(map["agent" := a], Some(first), [a], []);
    var w3 := AgentWorld(map["agent" := d], Some(first), [], [LogEntry(first, a, Written)]);
    var w4 := AgentWorld(map["agent" := d], Some(second), [d], [LogEntry(first, a, Written)]);
    FirstWrite(w2, a, d, first);
    SecondListing(w3, d, second);
    LastStepUnwarranted(w4, d, first, second);
    ws, es := EmptyRun(w0, k, spec);
    ws, es := Extended(ws, es, AgentAppears(a), w1, k, spec);
    ws, es := Extended(ws, es, StartPass(first, [a]), w2, k, spec);
    ws, es := Extended(ws, es, ProcessNext(ALL_OK), w3, k, spec);
    ws, es := Extended(ws, es, StartPass(second, [d]), w4, k, spec);
    ws, es := Extended(ws, es, ProcessNext(ALL_OK), After(w4, ProcessNext(ALL_OK)), k, spec);
  }

  lemma EmptyRun(w: AgentWorld, k: Key, spec: Spec) returns (ws: seq<AgentWorld>, es: seq<AgentEvent>)
    requires Initial(w)
    ensures IsAgentRunOf(ws, es, k, spec) && |ws| == 1 && |es| == 0 && ws[0] == w
  {
    ws, es := [w], [];
  }

  /** A run goes on by one step; what it was stays. */
  lemma Extended(ws: seq<AgentWorld>, es: seq<AgentEvent>, e: AgentEvent, w: AgentWorld, k: Key, spec: Spec)
    returns (ws': seq<AgentWorld>, es': seq<AgentEvent>)
    requires |ws| == |es| + 1 && IsAgentRunOf(ws, es, k, spec)
    requires CanHappen(ws[|es|], e) && w == After(ws[|es|], e)
    requires w.pass.Some? ==> w.pass.value.k == k && w.pass.value.spec == spec
    ensures |es'| == |es| + 1 && |ws'| == |ws| + 1 && IsAgentRunOf(ws', es', k, spec)
    ensures ws'[|es'|] == w && ws'[|es|] == ws[|es|] && es'[|es|] == e
  {
    hide Initial, CanHappen, After;
    ws', es' := ws + [w], es + [e];
  }

  lemma LastStepUnwarranted(w: AgentWorld, d: Agent, first: Pass, second: Pass)
    requires w == AgentWorld(map["agent" := d], Some(second), [d], [LogEntry(first, NEVER_BOUND, Written)])
    requires d.name == "agent" && second.number == 2
    requires Process(Some(d), d, second.k, second.spec, second.vms, ALL_OK).outcome == Deletion(true)
    ensures DeletesAgent(w, ProcessNext(ALL_OK)) && !Warranted(w, ProcessNext(ALL_OK))
    ensures After(w, ProcessNext(ALL_OK)).pass == w.pass
  {
    NobodySeenBound(first, d.uid);
    hide Process, SeenBound;
  }

  lemma FirstSteps(a: Agent, pass: Pass)
    requires a == NEVER_BOUND && pass.number == 1 && Reconciles(pass.spec)
    ensures var w0, w1 := AgentWorld(map[], None, [], []), AgentWorld(map["agent" := a], None, [], []);
            && Initial(w0)
            && CanHappen(w0, AgentAppears(a)) && After(w0, AgentAppears(a)) == w1
            && CanHappen(w1, StartPass(pass, [a]))
            && After(w1, StartPass(pass, [a])) == AgentWorld(map["agent" := a], Some(pass), [a], [])
  {
  }

  lemma FirstWrite(w: AgentWorld, a: Agent, d: Agent, pass: Pass)
    requires w == AgentWorld(map["agent" := a], Some(pass), [a], []) && a.name == "agent"
    requires Process(Some(a), a, pass.k, pass.spec, pass.vms, ALL_OK) == Processed(Some(d), Written, true, true)
    ensures CanHappen(w, ProcessNext(ALL_OK))
    ensures After(w, ProcessNext(ALL_OK)) == AgentWorld(map["agent" := d], Some(pass), [], [LogEntry(pass, a, Written)])
  {
    hide Process;
    assert [a][1..] == [];
    assert [] + [LogEntry(pass, a, Written)] == [LogEntry(pass, a, Written)];
    assert map["agent" := a]["agent" := d] == map["agent" := d];
  }

  lemma SecondListing(w: AgentWorld, d: Agent, pass: Pass)
    requires w.agents == map["agent" := d] && d.name == "agent" && w.pending == []
    requires w.pass.Some? && w.pass.value.number == 1 && pass.number == 2 && Reconciles(pass.spec)
    ensures CanHappen(w, StartPass(pass, [d])) && CanHappen(After(w, StartPass(pass, [d])), ProcessNext(ALL_OK))
    ensures After(w, StartPass(pass, [d])) == AgentWorld(w.agents, Some(pass), [d], w.log)
  {
  }

  lemma NobodySeenBound(pass: Pass, uid: nat)
    ensures !SeenBound([LogEntry(pass, NEVER_BOUND, Written)], uid, 2)
  {
  }

  /** Whatever pass is under way is one that looks at Agents at all. */
  lemma {:induction false} PassReconciles(ws: seq<AgentWorld>, es: seq<AgentEvent>, n: nat)
    requires IsAgentRun(ws, es) && n <= |es|
    ensures |ws| == |es| + 1 && (ws[n].pass.Some? ==> Reconciles(ws[n].pass.value.spec))
  {
    if n > 0 {
      PassReconciles(ws, es, n - 1);
      AgentRunStep(ws, es, n);
    }
    hide Process, MarksOf, Reconciles, IsListing, Released;
  }

  /** A template whose passes never get to the Agents deletes none. */
  lemma NothingDeleted(ws: seq<AgentWorld>, es: seq<AgentEvent>, k: Key, spec: Spec, n: nat)
    requires IsAgentRunOf(ws, es, k, spec) && n < |es| && !Reconciles(spec)
    ensures |ws| == |es| + 1 && !DeletesAgent(ws[n], es[n])
  {
    PassReconciles(ws, es, n);
    hide IsAgentRun, Process, MarksOf, IsListing, Reconciles;
  }

  /**
   * For any one template: every deletion in every run is warranted if and only if its label selector
   * leaves the binding label alone, or its passes never get to the Agents.
   */
  lemma DeletionSafeIff(k: Key, spec: Spec)
    requires k.name != ""
    ensures AllDeletionsWarranted(k, spec) <==> LeavesBinding(spec) || !Reconciles(spec)
  {
    if LeavesBinding(spec) {
      forall ws, es, n: nat | IsAgentRunOf(ws, es, k, spec) && n < |es| && DeletesAgent(ws[n], es[n])
        ensures Warranted(ws[n], es[n])
      {
        DeletionSafeInAnyRun(ws, es, n);
      }
    } else if Reconciles(spec) {
      var ws, es := UnsafeRun(k, spec);
      assert !Warranted(ws[4], es[4]);
    } else {
      forall ws, es, n: nat | IsAgentRunOf(ws, es, k, spec) && n < |es| ensures !DeletesAgent(ws[n], es[n]) {
        NothingDeleted(ws, es, k, spec, n);
      }
    }
  }

  /* ---------- the cleanup metadata ---------- */

  /** An earlier successful write matched this very Agent to a VM of that name. */
  ghost predicate WasMatched(log: seq<LogEntry>, uid: nat, vmName: string) {
    exists i :: 0 <= i < |log| && RecordsMatch(log[i], uid, vmName)
  }

  predicate RecordsMatch(entry: LogEntry, uid: nat, vmName: string) {
    && entry.copy.uid == uid && entry.outcome.Written?
    && IsMatch(entry.copy, entry.pass.vms) && MatchedName(entry.copy, entry.pass.vms) == vmName
  }

  /** The notes are those of the template with that spec. */
  predicate NotesOf(m: Marks, k: Key, spec: Spec) {
    && m.datacenter == spec.datacenter && m.folder == spec.folder
    && m.secret == CredentialName(spec) && m.secretNamespace == k.namespace
  }

  predicate SameNotes(m: Marks, n: Marks) {
    && m.note == n.note && m.datacenter == n.datacenter && m.folder == n.folder
    && m.secret == n.secret && m.secretNamespace == n.secretNamespace
  }

  /** An earlier pass matched this very Agent to the VM of that name, and the notes are of its template. */
  predicate RecordsNotes(entry: LogEntry, uid: nat, m: Marks) {
    RecordsMatch(entry, uid, m.note) && NotesOf(m, entry.pass.k, entry.pass.spec)
  }

  ghost predicate NotesRecorded(log: seq<LogEntry>, uid: nat, m: Marks) {
    exists i :: 0 <= i < |log| && RecordsNotes(log[i], uid, m)
  }

  /** The VM noted is the hostname, and the finalizer is there. */
  predicate NotesRight(a: Agent) {
    var m := MarksOf(a);
    m.note != "" ==> m.note == m.hostname && (m.finalized || a.deleting)
  }

  ghost predicate NotesExplained(a: Agent, log: seq<LogEntry>) {
    NotesRight(a) && (MarksOf(a).note != "" ==> NotesRecorded(log, a.uid, MarksOf(a)))
  }

  ghost predicate AllNotesExplained(w: AgentWorld) {
    && (forall name :: name in w.agents ==> NotesExplained(w.agents[name], w.log))
    && (forall i :: 0 <= i < |w.pending| ==> NotesExplained(w.pending[i], w.log))
  }

  lemma DressedNotes(c: Agent, k: Key, spec: Spec, vmName: string)
    requires NotesRight(c) && AgentCleanup in c.finalizers && vmName != ""
    ensures var d := Dressed(c, k, spec, vmName);
            && NotesRight(d) && MarksOf(d).note == vmName
            && if NotesChange(c, vmName) then NotesOf(MarksOf(d), k, spec) else SameNotes(MarksOf(d), MarksOf(c))
  {
    hide DressedLabels, CredentialName;
  }

  /**
   * The notes are written together with the name only: after a second write they are those of the spec
   * if and only if the name changed, or they were already. An edited spec leaves them as they were.
   */
  lemma NotesFollowSpecIff(c: Agent, k: Key, spec: Spec, vmName: string)
    requires vmName != ""
    ensures NotesOf(MarksOf(Dressed(c, k, spec, vmName)), k, spec) <==>
            Lookup(c.annotations, VMNameNote) != vmName || NotesOf(MarksOf(c), k, spec)
  {
    hide DressedLabels, CredentialName;
  }

  /** Processing keeps the notes, or writes those of the template and of the VM that this very step matched. */
  lemma ProcessNotes(p: Option<Agent>, a: Agent, k: Key, spec: Spec, vs: seq<VMStatus>, o: AgentOracle)
    requires NotesRight(a) && (p.Some? ==> NotesRight(p.value))
    requires a.name != ""
    ensures var r := Process(p, a, k, spec, vs, o);
            r.stored.Some? ==>
              && p.Some? && NotesRight(r.stored.value)
              && (SameNotes(MarksOf(r.stored.value), MarksOf(p.value)) ||
                  (r.outcome.Written? && IsMatch(a, vs) && MarksOf(r.stored.value).note == MatchedName(a, vs)
                   && NotesOf(MarksOf(r.stored.value), k, spec)))
  {
    hide IsMatch, Decide, NeedsDress, Dressed, NotesRight, MarksOf, MarkDeleted;
    hide Claim, NeedsClaim, NotesOf, NotesChange;
    var c, vmName := Claimed(a, k), MatchedName(a, vs);
    ClaimTakesOver(a, k, spec);
    assert vmName != "";
    hide MatchedName;
    ClaimKeepsNotes(a, k);
    DressedNotes(c, k, spec, vmName);
    MarkDeletedKeepsNotes(p);
    MarkDeletedKeepsNotes(Some(c));
  }

  lemma ClaimKeepsNotes(a: Agent, k: Key)
    requires NotesRight(a)
    ensures NotesRight(Claimed(a, k)) && SameNotes(MarksOf(Claimed(a, k)), MarksOf(a))
  {
  }

  lemma MarkDeletedKeepsNotes(p: Option<Agent>)
    requires p.Some? ==> NotesRight(p.value)
    ensures var q := MarkDeleted(p);
            q.Some? ==> p.Some? && NotesRight(q.value) && SameNotes(MarksOf(q.value), MarksOf(p.value))
  {
  }

  lemma SameNotesRecorded(log: seq<LogEntry>, uid: nat, m: Marks, n: Marks)
    requires NotesRecorded(log, uid, m) && SameNotes(m, n)
    ensures NotesRecorded(log, uid, n)
  {
    hide RecordsMatch, CredentialName;
    var i :| 0 <= i < |log| && RecordsNotes(log[i], uid, m);
    assert RecordsNotes(log[i], uid, n);
  }

  lemma RecordedGrows(log: seq<LogEntry>, more: seq<LogEntry>, uid: nat, m: Marks)
    requires NotesRecorded(log, uid, m)
    ensures NotesRecorded(log + more, uid, m)
  {
    hide RecordsNotes;
    var i :| 0 <= i < |log| && RecordsNotes(log[i], uid, m);
    assert (log + more)[i] == log[i];
  }

  lemma NotesGrow(a: Agent, log: seq<LogEntry>, more: seq<LogEntry>)
    requires NotesExplained(a, log)
    ensures NotesExplained(a, log + more)
  {
    hide NotesRight, NotesRecorded, MarksOf;
    if MarksOf(a).note != "" {
      RecordedGrows(log, more, a.uid, MarksOf(a));
    }
  }

  lemma JustRecorded(log: seq<LogEntry>, entry: LogEntry, uid: nat, m: Marks)
    requires RecordsNotes(entry, uid, m)
    ensures NotesRecorded(log + [entry], uid, m)
  {
    hide RecordsNotes;
    assert (log + [entry])[|log|] == entry;
  }

  /** The Agent that a step processes, as it is stored afterwards. */
  lemma ProcessedExplained(p: Option<Agent>, a: Agent, pass: Pass, o: AgentOracle, log: seq<LogEntry>)
    requires p.Some? ==> p.value.name == a.name && NotesExplained(p.value, log)
    requires NotesExplained(a, log) && a.name != ""
    ensures var r := Process(p, a, pass.k, pass.spec, pass.vms, o);
            r.stored.Some? ==> NotesExplained(r.stored.value, log + [LogEntry(pass, a, r.outcome)])
  {
    var r := Process(p, a, pass.k, pass.spec, pass.vms, o);
    ProcessNotes(p, a, pass.k, pass.spec, pass.vms, o);
    ProcessKeepsIdentity(p, a, pass.k, pass.spec, pass.vms, o);
    hide Process, NotesRight, IsMatch, MatchedName, MarksOf, NotesOf, NotesRecorded;
    var entry := LogEntry(pass, a, r.outcome);
    if r.stored.Some? && MarksOf(r.stored.value).note != "" {
      if SameNotes(MarksOf(r.stored.value), MarksOf(p.value)) {
        SameNotesRecorded(log, p.value.uid, MarksOf(p.value), MarksOf(r.stored.value));
        RecordedGrows(log, [entry], p.value.uid, MarksOf(r.stored.value));
      } else {
        JustRecorded(log, entry, a.uid, MarksOf(r.stored.value));
      }
    }
  }

  lemma NotesProcess(w: AgentWorld, o: AgentOracle)
    requires Consistent(w) && AllNotesExplained(w) && CanHappen(w, ProcessNext(o))
    ensures AllNotesExplained(After(w, ProcessNext(o)))
  {
    var a, pass := w.pending[0], w.pass.value;
    var p := Stored(w.agents, a.name);
    assert CopyCurrent(w, a);
    assert NotesExplained(a, w.log);
    assert p.Some? ==> NotesExplained(p.value, w.log);
    ProcessedExplained(p, a, pass, o, w.log);
    hide Process, NotesExplained, Consistent, MarksOf;
    var w', entry := After(w, ProcessNext(o)), LogEntry(pass, a, Result(w, o).outcome);
    forall name | name in w'.agents ensures NotesExplained(w'.agents[name], w'.log) {
      if name != a.name {
        NotesGrow(w.agents[name], w.log, [entry]);
      }
    }
    forall i | 0 <= i < |w'.pending| ensures NotesExplained(w'.pending[i], w'.log) {
      assert w'.pending[i] == w.pending[i + 1];
      NotesGrow(w.pending[i + 1], w.log, [entry]);
    }
  }

  lemma NotesStep(w: AgentWorld, e: AgentEvent)
    requires Consistent(w) && AllNotesExplained(w) && CanHappen(w, e)
    ensures AllNotesExplained(After(w, e))
  {
    hide Consistent, NotesRecorded, NotesRight, MarksOf;
    match e {
      case ProcessNext(o) => NotesProcess(w, o);
      case StartPass(_, listed) =>
        forall i | 0 <= i < |listed| ensures NotesExplained(listed[i], w.log) {
          assert NotesExplained(w.agents[listed[i].name], w.log);
        }
      case ReleaseFinalizer(name) =>
        ReleasedNotes(w.agents[name], w.log);
      case AgentAppears(a) =>
        UnmarkedNotes(a, w.log);
      case AgentChanges(a) =>
        SameMarksNotes(w.agents[a.name], a, w.log);
      case AgentGone(_) =>
    }
  }

  lemma ReleasedNotes(a: Agent, log: seq<LogEntry>)
    requires NotesExplained(a, log) && a.deleting
    ensures Released(a).Some? ==> NotesExplained(Released(a).value, log) && Released(a).value.name == a.name
  {
    hide NotesRecorded;
    if Released(a).Some? && MarksOf(a).note != "" {
      SameNotesRecorded(log, a.uid, MarksOf(a), MarksOf(Released(a).value));
    }
  }

  lemma UnmarkedNotes(a: Agent, log: seq<LogEntry>)
    requires Unmarked(a)
    ensures NotesExplained(a, log)
  {
    hide NotesRecorded;
  }

  lemma SameMarksNotes(a: Agent, b: Agent, log: seq<LogEntry>)
    requires NotesExplained(a, log)
    requires MarksOf(a) == MarksOf(b) && a.uid == b.uid && (a.deleting ==> b.deleting)
    ensures NotesExplained(b, log)
  {
    hide NotesRecorded, MarksOf;
  }

  /**
   * Cleanup-metadata invariant over all runs, of any templates with any edits of their specs: notes go
   * back to one earlier pass, which matched the Agent to the VM noted and whose template they are of.
   */
  lemma {:induction false} NotesExplainedInAnyRun(ws: seq<AgentWorld>, es: seq<AgentEvent>, n: nat)
    requires IsAgentRun(ws, es) && n <= |es|
    ensures AllNotesExplained(ws[n])
  {
    hide *;
    if n > 0 {
      NotesExplainedInAnyRun(ws, es, n - 1);
      AgentRunStep(ws, es, n);
      ConsistentInAnyRun(ws, es, n - 1);
      NotesStep(ws[n - 1], es[n - 1]);
    } else {
      NoNotesAtFirst(ws, es);
    }
  }

  lemma NoNotesAtFirst(ws: seq<AgentWorld>, es: seq<AgentEvent>)
    requires IsAgentRun(ws, es)
    ensures |ws| > 0 && AllNotesExplained(ws[0])
  {
    hide CanHappen, After, NotesExplained;
    forall name | name in ws[0].agents ensures NotesExplained(ws[0].agents[name], ws[0].log) {
      UnmarkedNotes(ws[0].agents[name], ws[0].log);
    }
  }

  /** In a run of one template with a fixed spec, every log entry is of it. */
  lemma {:induction false} LogOfTemplate(ws: seq<AgentWorld>, es: seq<AgentEvent>, k: Key, spec: Spec, n: nat)
    requires IsAgentRunOf(ws, es, k, spec) && n <= |es|
    ensures |ws| == |es| + 1
    ensures forall i :: 0 <= i < |ws[n].log| ==> ws[n].log[i].pass.k == k && ws[n].log[i].pass.spec == spec
  {
    if n > 0 {
      LogOfTemplate(ws, es, k, spec, n - 1);
      StepOfTemplate(ws, es, k, spec, n);
    }
    hide Process, MarksOf, IsListing, CanHappen, Released;
  }

  /** There the notes of every Agent agree with the spec. */
  lemma NotesAgreeInRunOf(ws: seq<AgentWorld>, es: seq<AgentEvent>, k: Key, spec: Spec, n: nat, name: string)
    requires IsAgentRunOf(ws, es, k, spec) && n <= |es| && name in ws[n].agents
    ensures MarksOf(ws[n].agents[name]).note != "" ==> NotesOf(MarksOf(ws[n].agents[name]), k, spec)
  {
    NotesExplainedInAnyRun(ws, es, n);
    LogOfTemplate(ws, es, k, spec, n);
    assert NotesExplained(ws[n].agents[name], ws[n].log);
    hide IsAgentRunOf, MarksOf, NotesOf, RecordsMatch;
  }

  lemma StepOfTemplate(ws: seq<AgentWorld>, es: seq<AgentEvent>, k: Key, spec: Spec, n: nat)
    requires IsAgentRunOf(ws, es, k, spec) && 0 < n <= |es|
    ensures IsAgentRun(ws, es) && |ws| == |es| + 1
    ensures CanHappen(ws[n - 1], es[n - 1]) && ws[n] == After(ws[n - 1], es[n - 1])
    ensures ws[n - 1].pass.Some? ==> ws[n - 1].pass.value.k == k && ws[n - 1].pass.value.spec == spec
  {
    AgentRunStep(ws, es, n);
    hide IsAgentRun, CanHappen, After;
  }

  /**
   * Hence a later finalization without the template destroys or switches off, if anything, a VM that
   * bears the Agent's hostname, and that is the name of the VM an earlier pass matched this Agent to.
   */
  lemma NotesNameTheMatchedVM(
    ws: seq<AgentWorld>, es: seq<AgentEvent>, n: nat,
    name: string, vms: seq<VM>, namespace: string, o: Lifecycle.FinalizerOracle)
    requires IsAgentRun(ws, es) && n <= |es| && name in ws[n].agents
    ensures var a := ws[n].agents[name];
            var after := Lifecycle.Finalize(vms, a, namespace, None, o).vms;
            after != vms ==>
              && o.found.Some? && o.found.value.name == a.hostname
              && after in {Lifecycle.Removed(vms, o.found.value), Lifecycle.SwitchedOff(vms, o.found.value)}
              && WasMatched(ws[n].log, a.uid, a.hostname)
  {
    NotesExplainedInAnyRun(ws, es, n);
    var a := ws[n].agents[name];
    assert NotesExplained(a, ws[n].log);
    Lifecycle.AnnotationPathDestroysNamed(vms, a, namespace, o);
    hide RecordsMatch, Lifecycle.Finalize, NotesOf, IsAgentRun;
    if MarksOf(a).note != "" {
      var i :| 0 <= i < |ws[n].log| && RecordsNotes(ws[n].log[i], a.uid, MarksOf(a));
      assert RecordsMatch(ws[n].log[i], a.uid, a.hostname);
    }
  }

  /* ---------- the verified pass is a stretch of a run ---------- */

  /** The log entries that a pass makes for its first j Agents. */
  function EntriesOf(agents: map<string, Agent>, pass: Pass, listed: seq<Agent>, os: seq<AgentOracle>, j: nat)
    : seq<LogEntry>
    requires j <= |listed|
  {
    seq(j, i requires 0 <= i < j =>
          LogEntry(pass, listed[i], OutcomeOf(agents, listed, pass.k, pass.spec, pass.vms, os, i)))
  }

  /** The world in the middle of a pass, when j Agents are done. */
  function Midway(w: AgentWorld, pass: Pass, listed: seq<Agent>, os: seq<AgentOracle>, j: nat): AgentWorld
    requires j <= |listed|
  {
    AgentWorld(AgentsPass(w.agents, listed[..j], pass.k, pass.spec, pass.vms, os).agents, Some(pass), listed[j..],
               w.log + EntriesOf(w.agents, pass, listed, os, j))
  }

  lemma MidwayStarts(w: AgentWorld, pass: Pass, listed: seq<Agent>, os: seq<AgentOracle>)
    ensures After(w, StartPass(pass, listed)) == Midway(w, pass, listed, os, 0)
  {
    assert listed[..0] == [] && listed[0..] == listed;
    assert w.log + EntriesOf(w.agents, pass, listed, os, 0) == w.log;
  }

  lemma MidwayStep(w: AgentWorld, pass: Pass, listed: seq<Agent>, os: seq<AgentOracle>, j: nat)
    requires j < |listed|
    ensures var m := Midway(w, pass, listed, os, j);
            && CanHappen(m, ProcessNext(OracleAt(os, j))) && m.pending[0] == listed[j] && m.pass == Some(pass)
            && After(m, ProcessNext(OracleAt(os, j))) == Midway(w, pass, listed, os, j + 1)
            && Result(m, OracleAt(os, j)).outcome == OutcomeOf(w.agents, listed, pass.k, pass.spec, pass.vms, os, j)
  {
    hide Process, OracleAt;
    assert listed[..j + 1][..j] == listed[..j];
    assert listed[j..][1..] == listed[j + 1..];
    var now, next := EntriesOf(w.agents, pass, listed, os, j), EntriesOf(w.agents, pass, listed, os, j + 1);
    assert next == now + [next[j]];
    assert w.log + next == (w.log + now) + [next[j]];
  }

  /** The run goes on by a pass: the one that ReconcileAgents makes of these listed Agents. */
  predicate GoesOnByPass(ws: seq<AgentWorld>, es: seq<AgentEvent>, ws': seq<AgentWorld>, es': seq<AgentEvent>,
                         pass: Pass, listed: seq<Agent>, os: seq<AgentOracle>)
    requires |ws| == |es| + 1
  {
    && |es'| == |es| + 1 + |listed| && |ws'| == |es'| + 1 && ws <= ws' && es < es'
    && es'[|es|] == StartPass(pass, listed)
    && forall j :: 0 <= j < |listed| ==>
      && es'[|es| + 1 + j] == ProcessNext(OracleAt(os, j))
      && ws'[|es| + 1 + j] == Midway(ws[|es|], pass, listed, os, j)
  }

  lemma GoesOn(ws: seq<AgentWorld>, es: seq<AgentEvent>, e: AgentEvent)
    returns (ws': seq<AgentWorld>, es': seq<AgentEvent>)
    requires |ws| == |es| + 1 && IsAgentRun(ws, es) && CanHappen(ws[|es|], e)
    ensures es' == es + [e] && ws' == ws + [After(ws[|es|], e)] && IsAgentRun(ws', es')
  {
    hide Initial, CanHappen, After;
    ws', es' := ws + [After(ws[|es|], e)], es + [e];
  }

  lemma {:induction false} PassUpTo(ws: seq<AgentWorld>, es: seq<AgentEvent>, pass: Pass, listed: seq<Agent>,
                                    os: seq<AgentOracle>, j: nat)
    returns (ws': seq<AgentWorld>, es': seq<AgentEvent>)
    requires |ws| == |es| + 1 && IsAgentRun(ws, es) && j <= |listed|
    requires CanHappen(ws[|es|], StartPass(pass, listed))
    ensures IsAgentRun(ws', es') && |es'| == |es| + 1 + j && |ws'| == |es'| + 1 && ws <= ws' && es < es'
    ensures es'[|es|] == StartPass(pass, listed)
    ensures forall i :: 0 <= i < j ==> es'[|es| + 1 + i] == ProcessNext(OracleAt(os, i))
    ensures forall i :: 0 <= i <= j ==> ws'[|es| + 1 + i] == Midway(ws[|es|], pass, listed, os, i)
  {
    hide Midway, After, CanHappen, IsAgentRun, OracleAt;
    if j == 0 {
      MidwayStarts(ws[|es|], pass, listed, os);
      ws', es' := GoesOn(ws, es, StartPass(pass, listed));
    } else {
      ws', es' := PassUpTo(ws, es, pass, listed, os, j - 1);
      MidwayStep(ws[|es|], pass, listed, os, j - 1);
      ws', es' := GoesOn(ws', es', ProcessNext(OracleAt(os, j - 1)));
    }
  }

  /** The deletions that a pass asks for, as steps of a run that goes on by it. */
  ghost predicate DeletionsWarranted(ws: seq<AgentWorld>, es: seq<AgentEvent>, at: nat, w: AgentWorld, pass: Pass,
                                     listed: seq<Agent>, os: seq<AgentOracle>)
    requires |ws| > at + |listed| && |es| >= at + |listed|
  {
    forall j :: 0 <= j < |listed| && OutcomeOf(w.agents, listed, pass.k, pass.spec, pass.vms, os, j).Deletion? ==>
      DeletesAgent(ws[at + j], es[at + j]) && Warranted(ws[at + j], es[at + j])
  }

  lemma MidwayPass(w: AgentWorld, pass: Pass, listed: seq<Agent>, os: seq<AgentOracle>, j: nat)
    requires j <= |listed|
    ensures Midway(w, pass, listed, os, j).pass == Some(pass)
  {
    hide AgentsPass;
  }

  lemma PassLeavesBinding(ws: seq<AgentWorld>, es: seq<AgentEvent>, ws': seq<AgentWorld>, es': seq<AgentEvent>,
                          pass: Pass, listed: seq<Agent>, os: seq<AgentOracle>)
    requires |ws| == |es| + 1 && GoesOnByPass(ws, es, ws', es', pass, listed, os)
    requires AllLeaveBinding(ws, es) && LeavesBinding(pass.spec)
    ensures AllLeaveBinding(ws', es')
  {
    hide LeavesBinding, Midway, OracleAt;
    forall i | 0 <= i < |es'| && es'[i].ProcessNext? && ws'[i].pass.Some?
      ensures LeavesBinding(ws'[i].pass.value.spec)
    {
      if i < |es| {
        assert es'[i] == es[i] && ws'[i] == ws[i];
      } else if i > |es| {
        var j := i - |es| - 1;
        assert ws'[|es| + 1 + j] == Midway(ws[|es|], pass, listed, os, j);
        MidwayPass(ws[|es|], pass, listed, os, j);
      }
    }
  }

  /**
   * What ReconcileAgents does to the stored Agents is what a run does in one pass, and so every deletion
   * it asks for after such a run is warranted.
   */
  lemma PassIsSafe(ws: seq<AgentWorld>, es: seq<AgentEvent>, pass: Pass, listed: seq<Agent>, os: seq<AgentOracle>)
    returns (ws': seq<AgentWorld>, es': seq<AgentEvent>)
    requires |ws| == |es| + 1 && IsAgentRun(ws, es) && CanHappen(ws[|es|], StartPass(pass, listed))
    requires AllLeaveBinding(ws, es) && LeavesBinding(pass.spec)
    ensures IsAgentRun(ws', es') && GoesOnByPass(ws, es, ws', es', pass, listed, os)
    ensures ws'[|es'|].pending == []
    ensures ws'[|es'|].agents == AgentsPass(ws[|es|].agents, listed, pass.k, pass.spec, pass.vms, os).agents
    ensures DeletionsWarranted(ws', es', |es| + 1, ws[|es|], pass, listed, os)
  {
    hide *;
    ws', es' := WholePass(ws, es, pass, listed, os);
    PassLeavesBinding(ws, es, ws', es', pass, listed, os);
    PassLengths(ws, es, ws', es', pass, listed, os);
    MidwayEnds(ws[|es|], pass, listed, os);
    PassDeletions(ws', es', |es| + 1, ws[|es|], pass, listed, os);
  }

  lemma WholePass(ws: seq<AgentWorld>, es: seq<AgentEvent>, pass: Pass, listed: seq<Agent>, os: seq<AgentOracle>)
    returns (ws': seq<AgentWorld>, es': seq<AgentEvent>)
    requires |ws| == |es| + 1 && IsAgentRun(ws, es) && CanHappen(ws[|es|], StartPass(pass, listed))
    ensures IsAgentRun(ws', es') && GoesOnByPass(ws, es, ws', es', pass, listed, os)
    ensures |es'| == |es| + 1 + |listed| && |ws'| == |es'| + 1
    ensures ws'[|es'|] == Midway(ws[|es|], pass, listed, os, |listed|)
  {
    hide IsAgentRun, CanHappen, Midway, OracleAt;
    ws', es' := PassUpTo(ws, es, pass, listed, os, |listed|);
    assert ws'[|es| + 1 + |listed|] == Midway(ws[|es|], pass, listed, os, |listed|);
  }

  lemma PassLengths(ws: seq<AgentWorld>, es: seq<AgentEvent>, ws': seq<AgentWorld>, es': seq<AgentEvent>,
                    pass: Pass, listed: seq<Agent>, os: seq<AgentOracle>)
    requires |ws| == |es| + 1 && GoesOnByPass(ws, es, ws', es', pass, listed, os)
    ensures |es'| == |es| + 1 + |listed| && |ws'| == |es'| + 1
    ensures forall j :: 0 <= j < |listed| ==>
                          && es'[|es| + 1 + j] == ProcessNext(OracleAt(os, j))
                          && ws'[|es| + 1 + j] == Midway(ws[|es|], pass, listed, os, j)
  {
    hide Midway, OracleAt;
  }

  lemma MidwayEnds(w: AgentWorld, pass: Pass, listed: seq<Agent>, os: seq<AgentOracle>)
    ensures var m := Midway(w, pass, listed, os, |listed|);
            m.pending == [] && m.agents == AgentsPass(w.agents, listed, pass.k, pass.spec, pass.vms, os).agents
  {
    hide AgentsPass;
    assert listed[..|listed|] == listed;
  }

  lemma PassDeletions(ws: seq<AgentWorld>, es: seq<AgentEvent>, at: nat, w: AgentWorld, pass: Pass,
                      listed: seq<Agent>, os: seq<AgentOracle>)
    requires IsAgentRun(ws, es) && |ws| == |es| + 1 && |es| == at + |listed| && AllLeaveBinding(ws, es)
    requires forall j :: 0 <= j < |listed| ==>
                           es[at + j] == ProcessNext(OracleAt(os, j)) && ws[at + j] == Midway(w, pass, listed, os, j)
    ensures DeletionsWarranted(ws, es, at, w, pass, listed, os)
  {
    hide IsAgentRun, AllLeaveBinding, Warranted, OutcomeOf, Midway, CanHappen, Result, OracleAt;
    forall j | 0 <= j < |listed| && OutcomeOf(w.agents, listed, pass.k, pass.spec, pass.vms, os, j).Deletion?
      ensures DeletesAgent(ws[at + j], es[at + j]) && Warranted(ws[at + j], es[at + j])
    {
      assert ws[at + j] == Midway(w, pass, listed, os, j);
      MidwayStep(w, pass, listed, os, j);
      DeletionSafeInAnyRun(ws, es, at + j);
    }
  }
}
