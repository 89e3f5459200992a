/**
 * Runs from nothing in which the controller loses something: an offline deletion that orphans a VM, a
 * shared secret that is let go, a stored count that says there are no VMs.
 */
module Mishaps {
  import opened Wrappers
  import opened GoFmt
  import opened Naming
  import opened Tags
  import opened Resources
  import opened Fleet
  import opened VmReconcile
  import opened PassLaws
  import opened Agents
  import opened AgentLaws
  import opened Lifecycle
  import opened FleetRuns
  import opened Counts
  import opened Controller

  const NO_LISTING := VmOracle(false, {}, false, false, [], false, {})
  const EMPTY := World([], {}, map[])

  const ONE_CREATED := [Created("uuid", [TAG_KEY])]

  /** Creates one VM and then lists the fleet again, or fails to, so that the stored count stays at zero. */
  function CreatesOne(relisted: bool): VmOracle {
    VmOracle(true, {}, true, true, ONE_CREATED, relisted, {})
  }

  function UncountedCreation(): NormalOracle {
    NormalOracle(true, Proceed(1, false), CreatesOne(false), [], true)
  }

  /** The specs of these runs: no quota, and a map that is iterated in one way only. */
  predicate Simple(spec: Spec) {
    spec.extraConfig == map[] && spec.maxVms.None? && Reconciles(spec)
  }

  const REQUESTED := NEW_STATUS.(desiredReplicas := 1)

  lemma OneCreated(k: Key, spec: Spec, relisted: bool)
    requires Simple(spec)
    ensures var made := NewVMs([], k, spec, 1, CreatesOne(relisted));
            && |made| == 1 && OwnedBy(made[0], k, spec)
            && made[0].uuid == "uuid" && made[0].name != "" && made[0].poweredOn
            && ValidPlan(ONE_CREATED, k, spec)
  {
    var o, plan := CreatesOne(relisted), ONE_CREATED;
    assert Tagged(spec.extraConfig, k).Keys == {TAG_KEY};
    assert Enumerates([TAG_KEY], {TAG_KEY}) by { assert (set x | x in [TAG_KEY]) == {TAG_KEY}; }
    assert ValidPlan(plan, k, spec);
    assert Padded(plan, 1) == plan;
    assert !NameTaken([], spec.folder, NextName(Prefix(k, spec), []));
    BatchUnfolds([], k, spec, [], plan);
    NewVMOwned(k, spec, [], plan[0]);
    assert Names([]) == [];
    assert NewVMs([], k, spec, 1, o) == Batch([], k, spec, [], plan);
    hide Batch, NextName, TaggedFor, Prefix, Enumerates, BuildOptions;
  }

  /** The template as that pass leaves it. */
  function Uncounted(k: Key, spec: Spec): VmOutcome {
    VmPass([], {}, k, spec, REQUESTED, CreatesOne(false))
  }

  lemma UncountedPass(k: Key, spec: Spec)
    requires Simple(spec)
    ensures var out := Uncounted(k, spec);
            && ValidPlan(ONE_CREATED, k, spec) && |out.vms| == 1 && OwnedBy(out.vms[0], k, spec)
            && !out.ok && out.status.currentReplicas == 0 && out.held == {SecretOf(k, spec)}
  {
    OneCreated(k, spec, false);
    PassAppends([], {}, k, spec, REQUESTED, CreatesOne(false));
    hide NewVMs, OwnedBy, ValidPlan, SecretOf;
  }

  /** A run goes on by one step. */
  lemma Extended(ws: seq<World>, es: seq<Event>, e: Event, w: World) returns (ws': seq<World>, es': seq<Event>)
    requires |ws| == |es| + 1 && IsRun(ws, es) && Enabled(ws[|es|], e) && w == Apply(ws[|es|], e)
    ensures |es'| == |es| + 1 && |ws'| == |ws| + 1 && IsRun(ws', es')
    ensures ws' == ws + [w] && es' == es + [e]
  {
    hide Enabled, Apply;
    ws', es' := ws + [w], es + [e];
  }

  /** The world with a template stored anew. */
  function With(w: World, k: Key, t: Template): World {
    w.(templates := w.templates[k := t])
  }

  function Fresh(spec: Spec): Template {
    Template(spec, NEW_STATUS, false, false)
  }

  lemma WithIs(w: World, k: Key, t: Template)
    ensures var w' := With(w, k, t);
            && w'.vms == w.vms && w'.held == w.held && w'.templates.Keys == w.templates.Keys + {k}
            && k in w'.templates && w'.templates[k] == t
            && forall j :: j in w.templates && j != k ==> w'.templates[j] == w.templates[j]
  {
  }

  /** The world with a deletion requested. */
  function Marked(w: World, k: Key): World
    requires k in w.templates
  {
    With(w, k, w.templates[k].(deleting := true))
  }

  lemma CreateStep(w: World, k: Key, spec: Spec)
    requires ValidKey(k) && k !in w.templates
    ensures Enabled(w, CreateTemplate(k, spec)) && Apply(w, CreateTemplate(k, spec)) == With(w, k, Fresh(spec))
  {
    hide ValidKey;
  }

  /** The first world, and the first template in it. */
  lemma FirstStep(k: Key, spec: Spec)
    requires ValidKey(k)
    ensures IsRun([EMPTY], []) && EMPTY.vms == [] && EMPTY.held == {} && EMPTY.templates == map[]
    ensures Enabled(EMPTY, CreateTemplate(k, spec))
    ensures Apply(EMPTY, CreateTemplate(k, spec)) == With(EMPTY, k, Fresh(spec))
    ensures var w := With(EMPTY, k, Fresh(spec));
            && w.vms == [] && w.held == {} && w.templates.Keys == {k}
            && w.templates[k] == Fresh(spec) && !Fresh(spec).deleting
  {
    CreateStep(EMPTY, k, spec);
    hide Apply, ValidKey;
  }

  lemma MarkStep(w: World, k: Key)
    requires k in w.templates && w.templates[k].finalizer
    ensures Enabled(w, RequestDeletion(k)) && Apply(w, RequestDeletion(k)) == Marked(w, k)
  {
  }

  /** The world after the uncounted creation, when there was no VM before. */
  function Scaled(w: World, k: Key, spec: Spec): World {
    With(World(Uncounted(k, spec).vms, {SecretOf(k, spec)}, w.templates), k,
         Template(spec, Uncounted(k, spec).status, true, false))
  }

  lemma CreationStep(w: World, k: Key, spec: Spec)
    requires w.vms == [] && w.held == {} && k in w.templates && w.templates[k] == Fresh(spec)
    requires Simple(spec)
    ensures Enabled(w, ReconcileTemplate(k, UncountedCreation()))
    ensures Apply(w, ReconcileTemplate(k, UncountedCreation())) == Scaled(w, k, spec)
  {
    UncountedPass(k, spec);
    hide VmPass, OwnedBy, ValidPlan, SecretOf;
  }

  /** The one VM made is the template's. */
  lemma ScaledHasVM(w: World, k: Key, spec: Spec)
    requires Simple(spec)
    ensures |Scaled(w, k, spec).vms| == 1 <= MAX_INT32 && OwnedBy(Scaled(w, k, spec).vms[0], k, spec)
    ensures TaggedFor(Scaled(w, k, spec).vms[0], k)
    ensures Scaled(w, k, spec).templates.Keys == w.templates.Keys + {k}
    ensures forall j :: j in w.templates && j != k ==> Scaled(w, k, spec).templates[j] == w.templates[j]
    ensures Scaled(w, k, spec).held == {SecretOf(k, spec)}
    ensures var t := Scaled(w, k, spec).templates[k];
            t.finalizer && !t.deleting && t.spec == spec && t.status.currentReplicas == 0
  {
    UncountedPass(k, spec);
    OwnedIsTagged(Uncounted(k, spec).vms[0], k, spec);
    hide Uncounted, OwnedBy, TaggedFor, SecretOf;
  }

  /** The world after the template's finalizer was dropped. */
  function Dropped(w: World, k: Key): World
    requires k in w.templates
  {
    With(w, k, w.templates[k].(finalizer := false))
  }

  lemma DroppedIs(w: World, k: Key)
    requires k in w.templates
    ensures var w' := Dropped(w, k);
            && w'.vms == w.vms && k in w'.templates && w'.templates[k] == w.templates[k].(finalizer := false)
  {
  }

  const OFFLINE := DeleteOracle(false, NO_LISTING, false, false, true)

  lemma OfflineStep(w: World, k: Key)
    requires k in w.templates && |w.vms| <= MAX_INT32
    requires var t := w.templates[k]; t.finalizer && t.deleting && t.status.currentReplicas == 0
    ensures Enabled(w, Event.DeleteTemplate(k, OFFLINE))
    ensures Apply(w, Event.DeleteTemplate(k, OFFLINE)) == Dropped(w, k)
  {
  }

  /**
   * The shortcut goes by the stored count. From nothing, a creation whose second listing failed, then
   * a deletion while vSphere is out of reach: the object is gone and its VM is still there.
   */
  lemma OfflineDeletionOrphans(k: Key, spec: Spec) returns (ws: seq<World>, es: seq<Event>)
    requires ValidKey(k) && Simple(spec)
    ensures |ws| == |es| + 1 && IsRun(ws, es) && ws[0] == EMPTY
    ensures var last := ws[|es|];
            k !in last.templates && |last.vms| == 1 && TaggedFor(last.vms[0], k)
  {
    hide *;
    FirstStep(k, spec);
    var w1 := With(EMPTY, k, Fresh(spec));
    ws, es := Extended([EMPTY], [], CreateTemplate(k, spec), w1);
    CreationStep(w1, k, spec);
    ScaledHasVM(w1, k, spec);
    var w2 := Scaled(w1, k, spec);
    ws, es := Extended(ws, es, ReconcileTemplate(k, UncountedCreation()), w2);
    MarkStep(w2, k);
    var w3 := MarkedIs(w2, k);
    ws, es := Extended(ws, es, RequestDeletion(k), w3);
    OfflineStep(w3, k);
    DroppedIs(w3, k);
    var w4 := Dropped(w3, k);
    ws, es := Extended(ws, es, Event.DeleteTemplate(k, OFFLINE), w4);
    VanishStep(w4, k);
    ws, es := Extended(ws, es, Vanish(k), w4.(templates := w4.templates - {k}));
  }

  lemma MarkedIs(w: World, k: Key) returns (w': World)
    requires k in w.templates
    ensures w' == Marked(w, k) && w'.vms == w.vms && w'.held == w.held && w'.templates.Keys == w.templates.Keys
    ensures w'.templates[k] == w.templates[k].(deleting := true)
    ensures forall j :: j in w.templates && j != k ==> w'.templates[j] == w.templates[j]
  {
    w' := Marked(w, k);
  }

  lemma VanishStep(w: World, k: Key)
    requires k in w.templates && w.templates[k].deleting && !w.templates[k].finalizer
    ensures Enabled(w, Vanish(k)) && Apply(w, Vanish(k)) == w.(templates := w.templates - {k})
  {
  }

  const COMPLETE := VmOracle(true, {}, true, true, [], true, {})
  const ONLINE := DeleteOracle(true, COMPLETE, true, true, true)

  /** The template j has no VM, so its deletion lets go of finalizer and secret. */
  lemma EmptyDeletionStep(w: World, j: Key, k: Key, spec: Spec)
    requires ValidKey(j) && ValidKey(k) && j != k && |w.vms| == 1 && OwnedBy(w.vms[0], k, spec)
    requires j in w.templates && w.templates[j] == Template(spec, NEW_STATUS, true, true)
    ensures var e := Event.DeleteTemplate(j, ONLINE);
            var w' := Apply(w, e);
            && Enabled(w, e) && w'.vms == w.vms && w'.held == w.held - {SecretOf(j, spec)}
            && w'.templates.Keys == w.templates.Keys
  {
    if OwnedBy(w.vms[0], j, spec) {
      OwnedIsTagged(w.vms[0], k, spec);
      OwnersAgree(w.vms[0], k, j, spec);
    }
    assert Current(w.vms, j, spec, {}) == [] by { assert w.vms[..0] == []; }
    DeleteStep(w.vms, w.held, j, w.templates[j], ONLINE);
    hide DeletePass, Current, OwnedBy, ValidKey, SecretOf, Prefix;
  }

  const FINALIZER_ONLY := NormalOracle(true, Unreachable, NO_LISTING, [], false)

  lemma FinalizerStep(w: World, j: Key)
    requires j in w.templates && !w.templates[j].deleting && |w.vms| <= MAX_INT32
    ensures Enabled(w, ReconcileTemplate(j, FINALIZER_ONLY))
    ensures Apply(w, ReconcileTemplate(j, FINALIZER_ONLY)) == With(w, j, w.templates[j].(finalizer := true))
  {
  }

  /**
   * Two templates that share a secret (the default name in one namespace): from nothing, the one is
   * scaled up, the other deleted, and the secret is let go although the fleet is still there.
   */
  lemma SharedSecretIsLetGo(j: Key, k: Key, spec: Spec) returns (ws: seq<World>, es: seq<Event>)
    requires ValidKey(j) && ValidKey(k) && j != k && j.namespace == k.namespace
    requires Simple(spec)
    ensures |ws| == |es| + 1 && IsRun(ws, es) && ws[0] == EMPTY
    ensures var last := ws[|es|];
            k in last.templates && |last.vms| == 1 && TaggedFor(last.vms[0], k) && last.held == {}
  {
    hide *;
    FirstStep(j, spec);
    var w1 := With(EMPTY, j, Fresh(spec));
    ws, es := Extended([EMPTY], [], CreateTemplate(j, spec), w1);
    CreateStep(w1, k, spec);
    WithIs(w1, k, Fresh(spec));
    var w2 := With(w1, k, Fresh(spec));
    ws, es := Extended(ws, es, CreateTemplate(k, spec), w2);
    CreationStep(w2, k, spec);
    ScaledHasVM(w2, k, spec);
    var w3 := Scaled(w2, k, spec);
    ws, es := Extended(ws, es, ReconcileTemplate(k, UncountedCreation()), w3);
    FinalizerStep(w3, j);
    FreshFinalized(spec);
    WithIs(w3, j, w3.templates[j].(finalizer := true));
    var w4 := With(w3, j, w3.templates[j].(finalizer := true));
    ws, es := Extended(ws, es, ReconcileTemplate(j, FINALIZER_ONLY), w4);
    MarkStep(w4, j);
    var w5 := MarkedIs(w4, j);
    ws, es := Extended(ws, es, RequestDeletion(j), w5);
    EmptyDeletionStep(w5, j, k, spec);
    SameNamespaceSecret(j, k, spec);
    ws, es := Extended(ws, es, Event.DeleteTemplate(j, ONLINE), Apply(w5, Event.DeleteTemplate(j, ONLINE)));
  }

  lemma FreshFinalized(spec: Spec)
    ensures Fresh(spec).(finalizer := true, deleting := true) == Template(spec, NEW_STATUS, true, true)
  {
  }

  lemma SameNamespaceSecret(j: Key, k: Key, spec: Spec)
    requires j.namespace == k.namespace
    ensures SecretOf(j, spec) == SecretOf(k, spec)
  {
  }

  /* ---------- a failed destroy ---------- */

  /** An Agent that boots on the VM made. */
  const MACHINE := Agent(1, "agent", {}, map[], map[], "", false, [], "uuid", "", "", false)
  const AGENTS := map["agent" := MACHINE]

  function Dressing(k: Key, spec: Spec, vmName: string): Agent {
    Dressed(Claim(MACHINE, k), k, spec, vmName)
  }

  lemma AgentIsLinked(k: Key, spec: Spec, v: VMStatus)
    requires v.uuid == "uuid" && v.name != ""
    ensures AgentsPass(AGENTS, [MACHINE], k, spec, [v], [ALL_OK]).vmStatus == [v.(agentName := "agent")]
  {
    assert [v][..0] == [] && [MACHINE][..0] == [];
    assert "uuid" in ByUuid([v]);
    assert MatchedName(MACHINE, [v]) == v.name;
    hide DressedLabels, LabelsChange, CleanupNotes;
    assert Process(Some(MACHINE), MACHINE, k, spec, [v], ALL_OK).outcome.Written?;
    assert Link([v], MACHINE) == [v.(agentName := "agent")];
    assert AgentsPass(AGENTS, [], k, spec, [v], [ALL_OK]) == AgentsOutcome(AGENTS, [v]);
  }

  function CountedPass(): PassOracle {
    var normal := NormalOracle(true, Proceed(1, false), CreatesOne(true), [], true);
    PassOracle(normal, true, None, Some([MACHINE]), [ALL_OK])
  }

  /** The VM made, and its entry with the Agent linked. */
  function MadeVM(k: Key, spec: Spec): VM
    requires |NewVMs([], k, spec, 1, CreatesOne(true))| == 1
  {
    NewVMs([], k, spec, 1, CreatesOne(true))[0]
  }

  function LinkedStatus(vm: VM): Status {
    Status(1, 1, 1, [Entry(vm).(agentName := "agent")])
  }

  lemma CountedVmPass(k: Key, spec: Spec)
    requires Simple(spec)
    ensures |NewVMs([], k, spec, 1, CreatesOne(true))| == 1
    ensures var vm := MadeVM(k, spec);
            && OwnedBy(vm, k, spec) && vm.uuid == "uuid" && vm.name != ""
            && VmPass([], {}, k, spec, REQUESTED, CreatesOne(true)) ==
               VmOutcome([vm], {SecretOf(k, spec)}, Status(1, 1, 1, [Entry(vm)]), true)
  {
    OneCreated(k, spec, true);
    var vm := MadeVM(k, spec);
    hide NewVMs, OwnedBy, SecretOf, Entry;
    assert NewVMs([], k, spec, 1, CreatesOne(true)) == [vm];
    assert [] + [vm] == [vm] && [vm][..0] == [];
    assert Current([vm], k, spec, {}) == [vm];
    OneEntry(vm);
    assert Entries([vm]) == [Entry(vm)];
  }

  lemma OneEntry(vm: VM)
    ensures ReadyCount(Entries([vm])) == if vm.poweredOn then 1 else 0
  {
    assert Entries([vm])[..0] == [];
  }

  /** The world after a pass that made the one VM, counted it, and linked the Agent. */
  function Counted(w: World, k: Key, spec: Spec): World
    requires |NewVMs([], k, spec, 1, CreatesOne(true))| == 1
  {
    var vm := MadeVM(k, spec);
    With(World([vm], {SecretOf(k, spec)}, w.templates), k, Template(spec, LinkedStatus(vm), true, false))
  }

  lemma CountedStep(w: World, k: Key, spec: Spec)
    requires w.vms == [] && w.held == {} && k in w.templates && w.templates[k] == Fresh(spec) && Simple(spec)
    ensures |NewVMs([], k, spec, 1, CreatesOne(true))| == 1
    ensures Enabled(w, PassEvent(w, AGENTS, k, CountedPass()))
    ensures Apply(w, PassEvent(w, AGENTS, k, CountedPass())) == Counted(w, k, spec)
  {
    OneCreated(k, spec, true);
    CountedVmPass(k, spec);
    hide VmPass, NewVMs, OwnedBy, ValidPlan, PassEvent, Apply, Counted, MadeVM, SecretOf;
    CountedEvent(w, k, spec);
    CountedNormal(w, k, spec);
    ReconcileIsNormal(w, k, LinkedCreation());
  }

  /** The pass as an event: the creation, and the one link. */
  function LinkedCreation(): NormalOracle {
    NormalOracle(true, Proceed(1, false), CreatesOne(true), ["agent"], true)
  }

  lemma CountedEvent(w: World, k: Key, spec: Spec)
    requires w.vms == [] && w.held == {} && k in w.templates && w.templates[k] == Fresh(spec) && Simple(spec)
    ensures PassEvent(w, AGENTS, k, CountedPass()) == ReconcileTemplate(k, LinkedCreation())
  {
    CountedVmPass(k, spec);
    var vm := MadeVM(k, spec);
    AgentIsLinked(k, spec, Entry(vm));
    hide VmPass, NewVMs, OwnedBy, SecretOf, Entry, AgentsPass, MadeVM;
    assert AgentPart(w, AGENTS, k, CountedPass()).vmStatus == [Entry(vm).(agentName := "agent")];
    assert AgentNames([Entry(vm).(agentName := "agent")]) == ["agent"];
  }

  lemma CountedNormal(w: World, k: Key, spec: Spec)
    requires w.vms == [] && w.held == {} && k in w.templates && w.templates[k] == Fresh(spec) && Simple(spec)
    requires |NewVMs([], k, spec, 1, CreatesOne(true))| == 1
    ensures NormalPass(w, k, LinkedCreation()) == Counted(w, k, spec)
  {
    CountedVmPass(k, spec);
    var vm := MadeVM(k, spec);
    RelinkedOne(Entry(vm));
    assert StartStatus(Fresh(spec), Proceed(1, false)) == REQUESTED;
    hide VmPass, NewVMs, OwnedBy, SecretOf, Entry, MadeVM, Relinked, StartStatus;
  }

  lemma RelinkedOne(v: VMStatus)
    ensures Relinked(Status(1, 1, 1, [v]), ["agent"]) == Status(1, 1, 1, [v.(agentName := "agent")])
  {
  }

  /** The linked Agent, as it is stored by then, deleted by a user. */
  function Deleted(k: Key, spec: Spec, vm: VM): Agent {
    Dressing(k, spec, vm.name).(deleting := true)
  }

  /** Every call succeeds but the destroy. */
  function FailingDestroy(vm: VM, switchedOff: bool): FinalizerOracle {
    FinalizerOracle(false, true, Some(vm), true, Failed(switchedOff), true, true)
  }

  lemma DeletedIsReleased(k: Key, spec: Spec, vm: VM, t: Template, off: bool)
    requires ManagedBy !in spec.agentLabelSelector && k.name != "" && t.status == LinkedStatus(vm)
    ensures var a := Deleted(k, spec, vm);
            TemplateKey(a, k.namespace) == k && StrikesOffOnly(t, k, a, FailingDestroy(vm, off))
  {
    hide BindingLabel, PoolLabel, CleanupNotes, TaggedFor, Entry;
    DressedLabelRead(Claim(MACHINE, k), spec, ManagedBy);
    assert k.name != "" ==> ManagedBy in Deleted(k, spec, vm).labels;
  }

  lemma OneVMNoOrphans(w: World, k: Key, spec: Spec)
    requires ValidKey(k) && |w.vms| == 1 && OwnedBy(w.vms[0], k, spec)
    requires w.templates.Keys == {k} && w.templates[k].finalizer && w.templates[k].spec == spec
    ensures NoOrphans(w)
  {
    hide OwnedBy, TaggedFor, ValidKey;
    forall vm, j | vm in w.vms && ValidKey(j) && TaggedFor(vm, j) ensures Anchored(vm, j, w) {
      OwnersAgree(vm, j, k, spec);
    }
  }

  /** From a deleted template whose one VM is linked to a deleted Agent: a failed destroy, then an offline pass. */
  lemma FailedDestroySteps(w: World, k: Key, spec: Spec, vm: VM, off: bool)
    requires ValidKey(k) && k.name != "" && ManagedBy !in spec.agentLabelSelector
    requires w.vms == [vm] && OwnedBy(vm, k, spec) && w.templates.Keys == {k}
    requires w.templates[k] == Template(spec, LinkedStatus(vm), true, true)
    ensures var e := ReleaseAgent(Deleted(k, spec, vm), k.namespace, FailingDestroy(vm, off));
            var w' := Apply(w, e);
            && Enabled(w, e) && k in w'.templates && |w'.vms| == 1 <= MAX_INT32 && TaggedFor(w'.vms[0], k)
            && w'.templates[k].finalizer && w'.templates[k].deleting && w'.templates[k].status.currentReplicas == 0
  {
    var a, o := Deleted(k, spec, vm), FailingDestroy(vm, off);
    DeletedIsReleased(k, spec, vm, w.templates[k], off);
    OneVMNoOrphans(w, k, spec);
    OwnedIsTagged(vm, k, spec);
    ReleaseStep(w, a, k.namespace, o);
    StruckOffRelease(w, a, k.namespace, o);
    NotDestroyedStays(w.vms, LinkedStatus(vm).vmStatus[0].name, Some(k), o, vm);
    TagIgnoresPower(vm, false, k);
    ReleaseIs(w, a, k.namespace, o);
    hide Release, AfterDestroy, TaggedFor, OwnedBy, ValidKey, Apply, Deleted, StrikesOffOnly, Kept, Entry, NoOrphans,
      Destroys, TemplateKey;
  }

  /** The run up to there. */
  lemma CountedRun(k: Key, spec: Spec) returns (ws: seq<World>, es: seq<Event>, vm: VM)
    requires ValidKey(k) && Simple(spec)
    ensures |ws| == |es| + 1 && |es| == 3 && IsRun(ws, es) && ws[0] == EMPTY
    ensures k in ws[1].templates && es[1] == PassEvent(ws[1], AGENTS, k, CountedPass())
    ensures ws[3].vms == [vm] && OwnedBy(vm, k, spec) && ws[3].templates.Keys == {k}
    ensures ws[3].templates[k] == Template(spec, LinkedStatus(vm), true, true)
  {
    hide *;
    FirstStep(k, spec);
    var w1 := With(EMPTY, k, Fresh(spec));
    ws, es := Extended([EMPTY], [], CreateTemplate(k, spec), w1);
    CountedStep(w1, k, spec);
    CountedVmPass(k, spec);
    CountedIs(w1, k, spec);
    vm := MadeVM(k, spec);
    var w2 := Counted(w1, k, spec);
    ws, es := Extended(ws, es, PassEvent(w1, AGENTS, k, CountedPass()), w2);
    MarkStep(w2, k);
    var w3 := MarkedIs(w2, k);
    ws, es := Extended(ws, es, RequestDeletion(k), w3);
  }

  lemma CountedIs(w: World, k: Key, spec: Spec)
    requires |NewVMs([], k, spec, 1, CreatesOne(true))| == 1 && w.templates.Keys == {k}
    ensures var w' := Counted(w, k, spec);
            && w'.vms == [MadeVM(k, spec)] && w'.templates.Keys == {k}
            && w'.templates[k] == Template(spec, LinkedStatus(MadeVM(k, spec)), true, false)
  {
    hide NewVMs, LinkedStatus, SecretOf;
  }

  /**
   * From nothing, one VM is made, counted and linked to its Agent; template and Agent are deleted; the
   * finalizer fails to destroy the VM but strikes it off; vSphere is out of reach for the next pass.
   * The object is gone and its VM is still there.
   */
  lemma FailedDestroyOrphans(k: Key, spec: Spec, off: bool) returns (ws: seq<World>, es: seq<Event>)
    requires ValidKey(k) && k.name != "" && Simple(spec) && ManagedBy !in spec.agentLabelSelector
    ensures |ws| == |es| + 1 && |es| == 6 && IsRun(ws, es) && ws[0] == EMPTY
    ensures k in ws[1].templates && es[1] == PassEvent(ws[1], AGENTS, k, CountedPass())
    ensures k !in ws[6].templates && |ws[6].vms| == 1 && TaggedFor(ws[6].vms[0], k)
  {
    var vm;
    hide *;
    ws, es, vm := CountedRun(k, spec);
    var release := ReleaseAgent(Deleted(k, spec, vm), k.namespace, FailingDestroy(vm, off));
    FailedDestroySteps(ws[3], k, spec, vm, off);
    var w4 := Apply(ws[3], release);
    ws, es := Extended(ws, es, release, w4);
    OfflineStep(w4, k);
    var w5 := Dropped(w4, k);
    DroppedIs(w4, k);
    ws, es := Extended(ws, es, Event.DeleteTemplate(k, OFFLINE), w5);
    VanishStep(w5, k);
    ws, es := Extended(ws, es, Vanish(k), w5.(templates := w5.templates - {k}));
  }
}
