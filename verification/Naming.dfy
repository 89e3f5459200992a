/**
 * VM names (controllers/vm_reconcile.go): `prefix-nNN`, and the allocator that re-reads the names in
 * use and hands out the lowest free number.
 */
module Naming {
  import opened Wrappers
  import opened GoFmt

  /**
   * A prefix without format directives: neither '%' nor white space. Scanning with any other prefix
   * follows directive rules that are not part of this model.
   */
  predicate Plain(prefix: string) {
    forall i :: 0 <= i < |prefix| ==> prefix[i] != '%' && !IsSpace(prefix[i])
  }

  function Stem(prefix: string): string {
    prefix + "-n"
  }

  function VMName(prefix: string, index: int): string {
    Stem(prefix) + Pad2(index)
  }

  /** Sscanf(name, prefix + "-n%d"): literal text must match, then an int32 is read. */
  function ScanIndex(prefix: string, name: string): (r: Option<int>)
    ensures r.Some? ==> InInt32(r.value)
  {
    var stem := Stem(prefix);
    if stem <= name then ScanInt(name[|stem|..]) else None
  }

  lemma ScanName(prefix: string, index: int, rest: string)
    requires InInt32(index)
    requires rest == [] || !IsDigit(rest[0])
    ensures ScanIndex(prefix, VMName(prefix, index) + rest) == Some(index)
  {
    var name := VMName(prefix, index) + rest;
    assert name[|Stem(prefix)|..] == Pad2(index) + rest;
    ScanPrinted(index, rest);
  }

  /** Printing is injective on int32, since scanning undoes it. */
  lemma VMNameInjective(prefix: string, i: int, j: int)
    requires InInt32(i) && InInt32(j)
    requires VMName(prefix, i) == VMName(prefix, j)
    ensures i == j
  {
    ScanName(prefix, i, []);
    ScanName(prefix, j, []);
    assert VMName(prefix, i) + [] == VMName(prefix, i);
    assert VMName(prefix, j) + [] == VMName(prefix, j);
  }

  /** The name is the prefix, "-n", and the number in two digits at least. */
  lemma VMNameText(prefix: string, index: int)
    ensures var name := VMName(prefix, index);
            && |name| >= |prefix| + 4 && name[..|prefix| + 2] == prefix + ['-', 'n']
            && var number := name[|prefix| + 2..];
            && if index >= 0 then AllDigits(number) && Value(number) == index && (|number| > 2 ==> number[0] != '0')
               else number[0] == '-' && AllDigits(number[1..]) && Value(number[1..]) == -index && number[1] != '0'
  {
    var name := VMName(prefix, index);
    assert name == (prefix + ['-', 'n']) + Pad2(index);
    assert name[|prefix| + 2..] == Pad2(index);
    if index >= 0 {
      PaddedWidth(index);
    } else {
      DecimalValue(-index);
      NoLeadingZero(-index);
      assert Pad2(index)[1..] == Decimal(-index);
    }
    hide Pad2;
  }

  /* ---------- the lowest free number ---------- */

  function UsedIndices(prefix: string, names: seq<string>): set<int> {
    set i | 0 <= i < |names| && ScanIndex(prefix, names[i]).Some? :: ScanIndex(prefix, names[i]).value
  }

  lemma UsedIndicesAppend(prefix: string, names: seq<string>, name: string)
    ensures UsedIndices(prefix, names + [name]) ==
            UsedIndices(prefix, names) + (if ScanIndex(prefix, name).Some? then {ScanIndex(prefix, name).value} else {})
  {
    var both := names + [name];
    assert both[|names|] == name;
    assert forall i :: 0 <= i < |names| ==> both[i] == names[i];
  }

  lemma {:induction false} UsedIndicesBounded(prefix: string, names: seq<string>)
    ensures |UsedIndices(prefix, names)| <= |names|
  {
    if names != [] {
      var n := |names| - 1;
      assert names == names[..n] + [names[n]];
      UsedIndicesBounded(prefix, names[..n]);
      UsedIndicesAppend(prefix, names[..n], names[n]);
    }
  }

  /** The least free number from k on; a pigeonhole bounds how far the search can go. */
  function FirstFree(used: set<int>, k: int): (r: int)
    ensures k <= r <= k + |used| && r !in used
    ensures forall j :: k <= j < r ==> j in used
    decreases |used|
  {
    if k !in used then k
    else
      var r := FirstFree(used - {k}, k + 1);
      assert forall j {:trigger j in used} :: k < j < r ==> j in used - {k};
      r
  }

  /** Counting up from one in int32: past the largest number the count goes on at the smallest. */
  function NextFree(used: set<int>): int {
    if FirstFree(used, 1) <= MAX_INT32 then FirstFree(used, 1) else FirstFree(used, MIN_INT32)
  }

  function NextIndex(prefix: string, names: seq<string>): int {
    NextFree(UsedIndices(prefix, names))
  }

  /** Any names short of all 2^32 leave a free number; any short of 2^31 leave a positive one. */
  lemma NextIndexIsFree(prefix: string, names: seq<string>)
    requires |names| < 0x1_0000_0000
    ensures InInt32(NextIndex(prefix, names)) && NextIndex(prefix, names) !in UsedIndices(prefix, names)
    ensures |names| < MAX_INT32 ==>
              1 <= NextIndex(prefix, names) == FirstFree(UsedIndices(prefix, names), 1) <= |names| + 1
  {
    UsedIndicesBounded(prefix, names);
    hide UsedIndices;
  }

  function NextName(prefix: string, names: seq<string>): string {
    VMName(prefix, NextIndex(prefix, names))
  }

  /** A name handed out is never one that was observed, even one with trailing text or a sign. */
  lemma NextNameIsFresh(prefix: string, names: seq<string>)
    requires |names| < 0x1_0000_0000
    ensures NextName(prefix, names) !in names
    ensures InInt32(NextIndex(prefix, names))
    ensures |names| < MAX_INT32 ==> 1 <= NextIndex(prefix, names) <= |names| + 1
    ensures forall i :: 0 <= i < |names| ==> ScanIndex(prefix, names[i]) != Some(NextIndex(prefix, names))
  {
    NextIndexIsFree(prefix, names);
    hide NextFree;
    var k := NextIndex(prefix, names);
    ScanName(prefix, k, []);
    assert VMName(prefix, k) + [] == VMName(prefix, k);
  }

  /** generateVMName: the plain printer, also for the indices the allocator never picks. */
  method GenerateVMName(prefix: string, index: int32) returns (name: string)
    ensures ScanIndex(prefix, name) == Some(index as int)
    ensures prefix < name
  {
    name := prefix + "-n" + Pad2(index as int);
    ScanName(prefix, index as int, []);
    assert name == VMName(prefix, index as int) + [];
  }

  /** The first loop of generateNextVMName: the map of numbers in use. */
  method CollectUsed(prefix: string, currentVMs: seq<string>) returns (used: map<int, bool>)
    requires Plain(prefix)
    ensures used.Keys == UsedIndices(prefix, currentVMs)
  {
    used := map[];
    for i := 0 to |currentVMs|
      invariant used.Keys == UsedIndices(prefix, currentVMs[..i])
    {
      assert currentVMs[..i + 1] == currentVMs[..i] + [currentVMs[i]];
      UsedIndicesAppend(prefix, currentVMs[..i], currentVMs[i]);
      var scanned := ScanIndex(prefix, currentVMs[i]);
      if scanned.Some? {
        used := used[scanned.value := true];
      }
    }
    assert currentVMs[..|currentVMs|] == currentVMs;
  }

  /** The second loop: count up from one, in int32. Fewer than 2^31 - 1 numbers in use keep it from wrapping. */
  method CountToFree(used: map<int, bool>) returns (nodeNum: int32)
    requires |used.Keys| < 0x1_0000_0000
    ensures nodeNum as int == NextFree(used.Keys)
    ensures |used.Keys| < MAX_INT32 ==> nodeNum as int == FirstFree(used.Keys, 1)
  {
    ghost var next, low := FirstFree(used.Keys, 1), FirstFree(used.Keys, MIN_INT32);
    ghost var wrapped := false;
    nodeNum := 1;
    while nodeNum as int in used
      invariant if wrapped then MAX_INT32 < next && nodeNum as int <= low else 1 <= nodeNum as int <= next
      decreases !wrapped, (if wrapped then low else next) - nodeNum as int
    {
      wrapped := wrapped || nodeNum == 0x7fff_ffff;
      nodeNum := if nodeNum == 0x7fff_ffff then -0x8000_0000 else nodeNum + 1;
    }
  }

  /** generateNextVMName. */
  method GenerateNextVMName(prefix: string, currentVMs: seq<string>) returns (name: string)
    requires Plain(prefix)
    requires |currentVMs| < 0x1_0000_0000
    ensures name == NextName(prefix, currentVMs)
    ensures name !in currentVMs
  {
    var used := CollectUsed(prefix, currentVMs);
    UsedIndicesBounded(prefix, currentVMs);
    var nodeNum := CountToFree(used);
    name := VMName(prefix, nodeNum as int);
    NextNameIsFresh(prefix, currentVMs);
  }

  /* ---------- a batch of names ---------- */

  /** The first d free numbers above zero, in the order a scale-up loop would use them. */
  function FreeIndices(used: set<int>, d: nat): (r: seq<int>)
    ensures |r| == d
    decreases d
  {
    if d == 0 then [] else
      var k := FirstFree(used, 1);
      [k] + FreeIndices(used + {k}, d - 1)
  }

  /** Exactly the smallest unused positive numbers, in increasing order. */
  ghost predicate SmallestFree(used: set<int>, f: seq<int>) {
    && (forall i :: 0 <= i < |f| ==> f[i] !in used && 1 <= f[i])
    && (forall i, j :: 0 <= i < j < |f| ==> f[i] < f[j])
    && (forall i, k :: 0 <= i < |f| && 1 <= k < f[i] && k !in f ==> k in used)
  }

  lemma {:induction false} FreeIndicesAreSmallest(used: set<int>, d: nat)
    ensures SmallestFree(used, FreeIndices(used, d))
    decreases d
  {
    if d > 0 {
      var k0 := FirstFree(used, 1);
      FreeIndicesAreSmallest(used + {k0}, d - 1);
      PrependSmallest(used, k0, FreeIndices(used + {k0}, d - 1));
    }
  }

  lemma PrependSmallest(used: set<int>, k0: int, rest: seq<int>)
    requires k0 == FirstFree(used, 1)
    requires SmallestFree(used + {k0}, rest)
    ensures SmallestFree(used, [k0] + rest)
  {
    var f := [k0] + rest;
    forall i | 0 <= i < |rest| ensures k0 < rest[i] && rest[i] !in used {
      assert rest[i] !in used + {k0};
    }
    forall i, k | 0 <= i < |f| && 1 <= k < f[i] && k !in f ensures k in used {
      assert f[0] == k0;
      if i > 0 {
        assert forall j :: 0 <= j < |rest| ==> f[j + 1] == rest[j];
        assert f[i] == rest[i - 1];
        assert k in used + {k0};
      }
    }
  }

  /** None of them is beyond the numbers in use and the batch together. */
  lemma {:induction false} FreeIndicesBounded(used: set<int>, d: nat)
    ensures forall i :: 0 <= i < d ==> FreeIndices(used, d)[i] <= |used| + d
    decreases d
  {
    if d > 0 {
      FreeIndicesBounded(used + {FirstFree(used, 1)}, d - 1);
    }
  }

  /** The names in use after a loop in which the i-th proposal was reported as created or not. */
  function NamesAfterLoop(prefix: string, names: seq<string>, reported: seq<bool>): seq<string>
    decreases |reported|
  {
    if reported == [] then names
    else NamesAfterLoop(prefix, if reported[0] then names + [NextName(prefix, names)] else names, reported[1..])
  }

  predicate NoDuplicates(names: seq<string>) {
    forall i, j :: 0 <= i < j < |names| ==> names[i] != names[j]
  }

  /** For any mix of outcomes, a batch's names differ from each other and from all that were observed. */
  lemma {:induction false} BatchNamesDistinct(prefix: string, names: seq<string>, reported: seq<bool>)
    requires NoDuplicates(names) && |names| + |reported| <= 0x1_0000_0000
    ensures names <= NamesAfterLoop(prefix, names, reported) && NoDuplicates(NamesAfterLoop(prefix, names, reported))
    decreases |reported|
  {
    if reported != [] {
      NextNameIsFresh(prefix, names);
      hide NextName, NextIndex, UsedIndices;
      BatchNamesDistinct(prefix, if reported[0] then names + [NextName(prefix, names)] else names, reported[1..]);
    }
  }
}
