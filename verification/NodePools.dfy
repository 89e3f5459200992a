/**
 * The match labels the controller puts on a NodePool (controllers/nodepool.go), against the labels it
 * puts on Agents: the two are built with opposite override orders.
 */
module NodePools {
  import opened Wrappers
  import opened Tags
  import opened Resources
  import opened Agents
  import opened AgentLaws

  class NodePool {
    var matchLabels: map<LabelKey, string>

    /** Labels already set are left alone; otherwise the pool label and then the user's are set. */
    method EnsureMatchLabels(spec: Spec, updateOk: bool)
      requires spec.nodePoolRef.Some?
      modifies this
      ensures matchLabels == EnsuredLabels(old(matchLabels), spec, updateOk)
      ensures old(matchLabels) != map[] || !updateOk ==> matchLabels == old(matchLabels)
      ensures old(matchLabels) == map[] && updateOk ==>
                && matchLabels.Keys == spec.agentLabelSelector.Keys + {NodePoolName}
                && (forall key :: key in spec.agentLabelSelector ==> matchLabels[key] == spec.agentLabelSelector[key])
                && (NodePoolName !in spec.agentLabelSelector ==> matchLabels[NodePoolName] == spec.nodePoolRef.value)
    {
      if matchLabels != map[] {
        return;
      }
      var newMatchLabels := BuildMatchLabels(spec.nodePoolRef.value, spec.agentLabelSelector);
      if updateOk {
        matchLabels := newMatchLabels;
      }
    }
  }

  /** The pool label first, then the user's labels over it, in any order. */
  method BuildMatchLabels(pool: string, selector: map<LabelKey, string>) returns (newMatchLabels: map<LabelKey, string>)
    ensures newMatchLabels == MatchLabels(pool, selector)
  {
    hide *;
    newMatchLabels := map[NodePoolName := pool];
    ghost var base := newMatchLabels;
    var todo := selector.Keys;
    ghost var done: set<LabelKey> := {};
    ChosenEnds(base, selector);
    while todo != {}
      invariant todo !! done && todo + done == selector.Keys
      invariant newMatchLabels == Chosen(base, selector, done)
      decreases |todo|
    {
      var key :| key in todo;
      ChosenStep(base, selector, done, key);
      newMatchLabels := newMatchLabels[key := selector[key]];
      todo := todo - {key};
      done := done + {key};
    }
    assert done == selector.Keys;
    MatchLabelsChosen(pool, selector);
  }

  /** A map with the selector's entries of `keys` put on top. */
  function Chosen(base: map<LabelKey, string>, selector: map<LabelKey, string>,
      keys: set<LabelKey>): map<LabelKey, string> {
    base + map key | key in selector && key in keys :: selector[key]
  }

  lemma ChosenStep(base: map<LabelKey, string>, selector: map<LabelKey, string>, keys: set<LabelKey>, key: LabelKey)
    requires key in selector
    ensures Chosen(base, selector, keys + {key}) == Chosen(base, selector, keys)[key := selector[key]]
  {
  }

  lemma ChosenEnds(base: map<LabelKey, string>, selector: map<LabelKey, string>)
    ensures Chosen(base, selector, {}) == base
    ensures Chosen(base, selector, selector.Keys) == base + selector
  {
    assert selector == map key | key in selector && key in selector.Keys :: selector[key];
  }

  lemma MatchLabelsChosen(pool: string, selector: map<LabelKey, string>)
    ensures Chosen(map[NodePoolName := pool], selector, selector.Keys) == MatchLabels(pool, selector)
  {
    ChosenEnds(map[NodePoolName := pool], selector);
  }

  function EnsuredLabels(matchLabels: map<LabelKey, string>, spec: Spec, updateOk: bool): map<LabelKey, string>
    requires spec.nodePoolRef.Some?
  {
    if matchLabels == map[] && updateOk then MatchLabels(spec.nodePoolRef.value, spec.agentLabelSelector)
    else matchLabels
  }

  function MatchLabels(pool: string, selector: map<LabelKey, string>): map<LabelKey, string> {
    map[NodePoolName := pool] + selector
  }

  /** Kubernetes label matching: the key must be there with exactly the value. */
  predicate Satisfies(labels: map<LabelKey, string>, required: map<LabelKey, string>) {
    forall key :: key in required ==> key in labels && labels[key] == required[key]
  }

  /** The selector entries that survive dressing: non-empty, and not at odds with the pool. */
  predicate Compatible(spec: Spec)
    requires spec.nodePoolRef.Some?
  {
    var selector, pool := spec.agentLabelSelector, spec.nodePoolRef.value;
    && pool != ""
    && (forall key :: key in selector && key.UserLabel? ==> selector[key] != "")
    && (NodePoolName in selector ==> selector[NodePoolName] == pool)
    && (Binding in selector ==> selector[Binding] == pool)
  }

  ghost predicate AlwaysSelected(k: Key, spec: Spec)
    requires spec.nodePoolRef.Some?
  {
    var required := MatchLabels(spec.nodePoolRef.value, spec.agentLabelSelector);
    forall a :: Satisfies(DressedLabels(Claimed(a, k), spec), required)
  }

  lemma CompatibleIsSelected(a: Agent, k: Key, spec: Spec)
    requires spec.nodePoolRef.Some? && Compatible(spec) && k.name != ""
    ensures Satisfies(DressedLabels(Claimed(a, k), spec), MatchLabels(spec.nodePoolRef.value, spec.agentLabelSelector))
  {
    var selector, pool := spec.agentLabelSelector, spec.nodePoolRef.value;
    var c := Claimed(a, k);
    ClaimTakesOver(a, k, spec);
    hide Claimed;
    forall key | key in MatchLabels(pool, selector)
      ensures key in DressedLabels(c, spec) && DressedLabels(c, spec)[key] == MatchLabels(pool, selector)[key]
    {
      DressedLabelRead(c, spec, key);
      if key == ManagedBy {
        assert ManagedBy in c.labels;
        assert ManagedBy in UserLabels(c.labels, selector);
      } else if key.UserLabel? {
        assert selector[key] != "";
      }
    }
  }

  /** A new Agent, not yet bound, on which every incompatible selector fails. */
  const NEW_AGENT := Agent(0, "agent", {}, map[], map[], "", false, [], "u", "", "", false)

  lemma IncompatibleIsNotSelected(k: Key, spec: Spec)
    requires spec.nodePoolRef.Some? && !Compatible(spec) && k.name != ""
    ensures var required := MatchLabels(spec.nodePoolRef.value, spec.agentLabelSelector);
            !Satisfies(DressedLabels(Claimed(NEW_AGENT, k), spec), required)
  {
    var selector, pool := spec.agentLabelSelector, spec.nodePoolRef.value;
    var c := Claimed(NEW_AGENT, k);
    assert c.labels == map[ManagedBy := k.name];
    var labels, required := DressedLabels(c, spec), MatchLabels(pool, selector);
    DressedLabelRead(c, spec, NodePoolName);
    DressedLabelRead(c, spec, Binding);
    assert NodePoolName in required;
    if NodePoolName in selector && selector[NodePoolName] != pool {
      assert required[NodePoolName] != Lookup(labels, NodePoolName);
    } else if pool == "" {
      assert NodePoolName !in UserLabels(c.labels, selector);
      assert NodePoolName !in labels;
    } else if Binding in selector && selector[Binding] != pool {
      assert Binding in required;
      if selector[Binding] == "" {
        assert Binding !in UserLabels(c.labels, selector);
        assert Binding !in labels;
      }
    } else {
      var key :| key in selector && key.UserLabel? && selector[key] == "";
      assert key in required;
      assert key !in UserLabels(c.labels, selector);
      assert key !in labels;
    }
  }

  /** Every labelled Agent is selected by the match labels the controller wrote iff they are compatible. */
  lemma SelectionIff(k: Key, spec: Spec)
    requires spec.nodePoolRef.Some? && k.name != ""
    ensures AlwaysSelected(k, spec) <==> Compatible(spec)
  {
    if Compatible(spec) {
      forall a
        ensures var required := MatchLabels(spec.nodePoolRef.value, spec.agentLabelSelector);
                Satisfies(DressedLabels(Claimed(a, k), spec), required)
      {
        CompatibleIsSelected(a, k, spec);
      }
    } else {
      IncompatibleIsNotSelected(k, spec);
    }
  }
}
