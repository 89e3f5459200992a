/** The condition list of a template (api/v1alpha1/vmwarenodepooltemplate_types.go) as a map by type. */
module Conditions {
  import opened Wrappers

  datatype Verdict = True | False | Unknown

  datatype Condition = Condition(
    conditionType: string, verdict: Verdict, generation: int, transition: int, reason: string, message: string)

  /** One SetCondition call: what it sets, and the generation and clock it reads. */
  datatype Setting = Setting(
    conditionType: string, verdict: Verdict, reason: string, message: string, generation: int, now: int)

  function Fresh(s: Setting): Condition {
    Condition(s.conditionType, s.verdict, s.generation, s.now, s.reason, s.message)
  }

  predicate Says(c: Condition, s: Setting) {
    c.conditionType == s.conditionType && c.verdict == s.verdict && c.reason == s.reason && c.message == s.message
  }

  /** The abstract view: the condition each type stands at. */
  function Lookup(cs: seq<Condition>, conditionType: string): Option<Condition> {
    if cs == [] then None
    else if cs[0].conditionType == conditionType then Some(cs[0])
    else Lookup(cs[1..], conditionType)
  }

  function Types(cs: seq<Condition>): seq<string> {
    seq(|cs|, i requires 0 <= i < |cs| => cs[i].conditionType)
  }

  function Put(cs: seq<Condition>, s: Setting): seq<Condition> {
    if cs == [] then [Fresh(s)]
    else if cs[0].conditionType == s.conditionType then
      (if Says(cs[0], s) then cs else [Fresh(s)] + cs[1..])
    else [cs[0]] + Put(cs[1..], s)
  }

  /** The part of a template that SetCondition and GetCondition work on. */
  class ConditionList {
    var generation: int
    var conditions: seq<Condition>

    method SetCondition(conditionType: string, verdict: Verdict, reason: string, message: string, now: int)
      modifies this`conditions
      ensures conditions == Put(old(conditions), Setting(conditionType, verdict, reason, message, generation, now))
    {
      var condition := Condition(conditionType, verdict, generation, now, reason, message);
      ghost var s := Setting(conditionType, verdict, reason, message, generation, now);
      for i := 0 to |conditions|
        invariant conditions == old(conditions)
        invariant forall j :: 0 <= j < i ==> conditions[j].conditionType != conditionType
      {
        var existing := conditions[i];
        if existing.conditionType == conditionType {
          PutAt(conditions, i, s);
          if existing.verdict != verdict || existing.reason != reason || existing.message != message {
            conditions := conditions[i := condition];
          }
          return;
        }
      }
      PutAt(conditions, |conditions|, s);
      conditions := conditions + [condition];
    }

    method GetCondition(conditionType: string) returns (found: Option<Condition>)
      ensures found == Lookup(conditions, conditionType)
    {
      for i := 0 to |conditions|
        invariant Lookup(conditions[i..], conditionType) == Lookup(conditions, conditionType)
      {
        if conditions[i].conditionType == conditionType {
          return Some(conditions[i]);
        }
      }
      assert conditions[|conditions|..] == [];
      return None;
    }
  }

  /* ---------- one call ---------- */

  /** Put works at the first entry of the type, or at the end. */
  lemma {:induction false} PutAt(cs: seq<Condition>, i: nat, s: Setting)
    requires i <= |cs|
    requires forall j :: 0 <= j < i ==> cs[j].conditionType != s.conditionType
    requires i < |cs| ==> cs[i].conditionType == s.conditionType
    ensures Put(cs, s) == if i == |cs| then cs + [Fresh(s)] else if Says(cs[i], s) then cs else cs[i := Fresh(s)]
  {
    if i > 0 {
      PutAt(cs[1..], i - 1, s);
    }
  }

  /** Only the type set changes, and its transition time moves exactly when what it says changes. */
  lemma {:induction false} PutLookup(cs: seq<Condition>, s: Setting, other: string)
    ensures other != s.conditionType ==> Lookup(Put(cs, s), other) == Lookup(cs, other)
    ensures var was := Lookup(cs, s.conditionType);
            Lookup(Put(cs, s), s.conditionType) == Some(if was.Some? && Says(was.value, s) then was.value else Fresh(s))
  {
    if cs != [] && cs[0].conditionType != s.conditionType {
      PutLookup(cs[1..], s, other);
    }
  }

  /** The call speaks of the type of the entry, and says the same. */
  predicate Repeats(c: Condition, s: Setting) {
    c.verdict == s.verdict && c.reason == s.reason && c.message == s.message
  }

  /** What is read of the type after a call: what was set, with a new time only if that is something new. */
  lemma SetThenGet(cs: seq<Condition>, s: Setting)
    ensures var was, now := Lookup(cs, s.conditionType), Lookup(Put(cs, s), s.conditionType);
            && now.Some? && now.value.conditionType == s.conditionType && Repeats(now.value, s)
            && if was.Some? && Repeats(was.value, s) then now == was
               else now.value.transition == s.now && now.value.generation == s.generation
  {
    PutLookup(cs, s, s.conditionType);
    LookupType(cs, s.conditionType);
    hide Put, Lookup;
  }

  /** The entry read for a type is the first one of that type. */
  lemma {:induction false} LookupType(cs: seq<Condition>, conditionType: string)
    ensures match Lookup(cs, conditionType)
            case None => forall i :: 0 <= i < |cs| ==> cs[i].conditionType != conditionType
            case Some(c) =>
              c.conditionType == conditionType
              && exists i :: 0 <= i < |cs| && cs[i] == c
                             && forall j :: 0 <= j < i ==> cs[j].conditionType != conditionType
  {
    if cs != [] && cs[0].conditionType != conditionType {
      LookupType(cs[1..], conditionType);
      assert forall i :: 0 < i < |cs| ==> cs[i] == cs[1..][i - 1];
      assert forall i :: 0 <= i < |cs[1..]| ==> cs[1..][i] == cs[i + 1];
      if c :| Lookup(cs[1..], conditionType) == Some(c) {
        var i :| 0 <= i < |cs[1..]| && cs[1..][i] == c
                 && forall j :: 0 <= j < i ==> cs[1..][j].conditionType != conditionType;
        assert cs[i + 1] == c;
      }
    }
  }

  /** Types keep their places; a new one goes to the end. */
  lemma {:induction false} PutTypes(cs: seq<Condition>, s: Setting)
    ensures Types(Put(cs, s)) == Types(cs) + if Lookup(cs, s.conditionType).None? then [s.conditionType] else []
    ensures Lookup(cs, s.conditionType).None? <==> s.conditionType !in Types(cs)
  {
    if cs != [] {
      assert Types(cs) == [cs[0].conditionType] + Types(cs[1..]);
      if cs[0].conditionType != s.conditionType {
        PutTypes(cs[1..], s);
        assert Types(Put(cs, s)) == [cs[0].conditionType] + Types(Put(cs[1..], s));
      }
    }
  }

  /* ---------- any sequence of calls ---------- */

  function PutAll(cs: seq<Condition>, settings: seq<Setting>): seq<Condition> {
    if settings == [] then cs else Put(PutAll(cs, settings[..|settings| - 1]), settings[|settings| - 1])
  }

  /** The types in the order they were first set. */
  function FirstSet(settings: seq<Setting>): seq<string> {
    if settings == [] then []
    else
      var before, t := FirstSet(settings[..|settings| - 1]), settings[|settings| - 1].conditionType;
      if t in before then before else before + [t]
  }

  function LastOf(settings: seq<Setting>, conditionType: string): Option<Setting> {
    if settings == [] then None
    else if settings[|settings| - 1].conditionType == conditionType then Some(settings[|settings| - 1])
    else LastOf(settings[..|settings| - 1], conditionType)
  }

  /** The call that last changed what a type says: the transition time and generation come from it. */
  function LastChange(settings: seq<Setting>, conditionType: string): Option<Setting> {
    if settings == [] then None
    else
      var s := settings[|settings| - 1];
      var before := LastChange(settings[..|settings| - 1], conditionType);
      if s.conditionType != conditionType || (before.Some? && Says(Fresh(before.value), s)) then before else Some(s)
  }

  /**
   * After any calls from an empty list, the list is the map by type: one entry a type, in first-set
   * order, saying what the last call for the type said, stamped by the last call that changed it.
   */
  lemma {:induction false} ConditionsAreAMap(settings: seq<Setting>, conditionType: string)
    ensures Types(PutAll([], settings)) == FirstSet(settings)
    ensures forall i, j :: 0 <= i < j < |FirstSet(settings)| ==> FirstSet(settings)[i] != FirstSet(settings)[j]
    ensures var got := Lookup(PutAll([], settings), conditionType);
            && (got.Some? <==> LastOf(settings, conditionType).Some?)
            && (got.Some? ==> Says(got.value, LastOf(settings, conditionType).value))
            && got == match LastChange(settings, conditionType) case None => None case Some(s) => Some(Fresh(s))
  {
    if settings != [] {
      var init, s := settings[..|settings| - 1], settings[|settings| - 1];
      ConditionsAreAMap(init, conditionType);
      PutTypes(PutAll([], init), s);
      PutLookup(PutAll([], init), s, conditionType);
    }
  }
}
