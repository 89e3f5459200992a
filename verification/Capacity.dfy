/**
 * Capacity and utilisation arithmetic (pkg/vsphere/resources.go). The int64 quantities are unbounded
 * here, which for a cluster's usage is shown to be no loss; the conversions to int32 are not.
 */
module Capacity {
  import opened Wrappers
  import opened GoFmt

  datatype DatastoreUtilization = DatastoreUtilization(capacityGB: int, freeSpaceGB: int, usedGB: int, percentUsed: int)

  datatype ComputeUtilization = ComputeUtilization(
    cpuTotalMhz: int, cpuEffectiveMhz: int, cpuUsedMhz: int, cpuAvailableMhz: int, cpuPercentUsed: int,
    memoryTotalMb: int, memoryEffectiveMb: int, memoryUsedMb: int, memoryAvailableMb: int, memoryPercentUsed: int)

  datatype VMSize = VMSize(numCPUs: int, memoryMB: int, diskSizeGB: int)

  datatype HostStats = HostStats(cpuUsage: Int32, memoryUsage: Int32)

  const GIB := 1024 * 1024 * 1024

  /** Go's division by a positive number truncates toward zero. */
  function GoDiv(a: int, b: int): int
    requires b > 0
  {
    if a >= 0 then a / b else -((-a) / b)
  }

  /** Toward zero from either side. */
  lemma GoDivTruncates(a: int, b: int)
    requires b > 0
    ensures GoDiv(-a, b) == -GoDiv(a, b)
    ensures a >= 0 ==> GoDiv(a, b) * b <= a < (GoDiv(a, b) + 1) * b
  {
    if a == 0 {
      DivisionFits(0, b, 0);
      DivisionFits(1, b, 0);
    }
    DivisionFits(a / b, b, a);
    DivisionFits(a / b + 1, b, a);
  }

  function Max0(n: int): (r: int)
    ensures r >= 0 && r >= n && (r == 0 || r == n)
  {
    if n < 0 then 0 else n
  }

  function Percent(used: int, total: int): int {
    if total > 0 then Wrap32(GoDiv(used * 100, total)) else 0
  }

  /* ---------- the estimate ---------- */

  function DiskPerVM(size: VMSize): int { if size.diskSizeGB == 0 then 120 else size.diskSizeGB }

  function MhzPerVM(size: VMSize): int { (if size.numCPUs == 0 then 2 else size.numCPUs) * 2000 }

  function MemoryPerVM(size: VMSize): int { if size.memoryMB == 0 then 4096 else size.memoryMB }

  function CpuFor(cu: ComputeUtilization, useEffective: bool): int {
    (if useEffective then cu.cpuEffectiveMhz else cu.cpuTotalMhz) - cu.cpuUsedMhz
  }

  function MemoryFor(cu: ComputeUtilization, useEffective: bool): int {
    (if useEffective then cu.memoryEffectiveMb else cu.memoryTotalMb) - cu.memoryUsedMb
  }

  /** How many units of the given size a resource yields, stored in an int32. */
  function Yield(available: int, perVM: int): int {
    if perVM > 0 then Wrap32(GoDiv(available, perVM)) else 0
  }

  function Least(a: int, b: int, c: int): int {
    var capacity := if b < a then b else a;
    if c < capacity then c else capacity
  }

  /** CalculateEstimatedVMCapacity. */
  function Estimate(ds: DatastoreUtilization, cu: ComputeUtilization, size: VMSize, useEffective: bool): (n: int)
    ensures 0 <= n <= MAX_INT32
  {
    Max0(Least(Yield(ds.freeSpaceGB, DiskPerVM(size)),
               Yield(Max0(CpuFor(cu, useEffective)), MhzPerVM(size)),
               Yield(Max0(MemoryFor(cu, useEffective)), MemoryPerVM(size))))
  }

  /** k units of the given size fit in what is available. */
  predicate Room(k: nat, perVM: int, available: int) {
    k * perVM <= Max0(available)
  }

  /** The specification: k VMs fit in the free storage, CPU and memory together. */
  predicate Fits(k: nat, ds: DatastoreUtilization, cu: ComputeUtilization, size: VMSize, useEffective: bool) {
    && Room(k, DiskPerVM(size), ds.freeSpaceGB)
    && Room(k, MhzPerVM(size), CpuFor(cu, useEffective))
    && Room(k, MemoryPerVM(size), MemoryFor(cu, useEffective))
  }

  predicate Sized(size: VMSize) {
    DiskPerVM(size) > 0 && MhzPerVM(size) > 0 && MemoryPerVM(size) > 0
  }

  /** The quotient is not changed by being stored in an int32. */
  predicate Storable(available: int, perVM: int) {
    perVM > 0 && InInt32(GoDiv(available, perVM))
  }

  predicate NoTruncation(ds: DatastoreUtilization, cu: ComputeUtilization, size: VMSize, useEffective: bool) {
    && Storable(ds.freeSpaceGB, DiskPerVM(size))
    && Storable(Max0(CpuFor(cu, useEffective)), MhzPerVM(size))
    && Storable(Max0(MemoryFor(cu, useEffective)), MemoryPerVM(size))
  }

  lemma DivisionFits(k: int, d: int, a: int)
    requires d > 0
    ensures k * d <= a <==> k <= a / d
  {
    var q, r := a / d, a % d;
    assert a == d * q + r;
    if k <= q {
      assert k * d <= q * d;
    } else {
      assert (q + 1) * d <= k * d;
    }
  }

  lemma YieldIsGreatest(k: nat, available: int, perVM: int)
    requires Storable(available, perVM)
    ensures Room(k, perVM, available) <==> k <= Max0(Yield(available, perVM))
  {
    DivisionFits(k, perVM, Max0(available));
    DivisionFits(0, perVM, -available);
    if available < 0 {
      DivisionFits(1, perVM, 0);
      DivisionFits(0, perVM, 0);
    }
  }

  /** The estimate is the largest number of VMs that fits: fitting and being at most it are the same. */
  lemma EstimateIsGreatestFit(k: nat, ds: DatastoreUtilization, cu: ComputeUtilization, size: VMSize,
      useEffective: bool)
    requires NoTruncation(ds, cu, size, useEffective)
    ensures Fits(k, ds, cu, size, useEffective) <==> k <= Estimate(ds, cu, size, useEffective)
  {
    YieldIsGreatest(k, ds.freeSpaceGB, DiskPerVM(size));
    YieldIsGreatest(k, Max0(CpuFor(cu, useEffective)), MhzPerVM(size));
    YieldIsGreatest(k, Max0(MemoryFor(cu, useEffective)), MemoryPerVM(size));
    if k == 0 {
      assert Room(0, DiskPerVM(size), ds.freeSpaceGB);
    }
  }

  /** What is left of a total, never less than nothing. */
  function LeftOver(total: int, used: int): nat {
    if total < used then 0 else total - used
  }

  /** k VMs of the given size fit into what the figures leave: gigabytes, 2000 MHz a CPU, megabytes. */
  predicate HoldsVMs(k: nat, ds: DatastoreUtilization, cu: ComputeUtilization, size: VMSize, useEffective: bool) {
    var mhz := if useEffective then cu.cpuEffectiveMhz else cu.cpuTotalMhz;
    var mb := if useEffective then cu.memoryEffectiveMb else cu.memoryTotalMb;
    && k * size.diskSizeGB <= LeftOver(ds.freeSpaceGB, 0)
    && k * (size.numCPUs * 2000) <= LeftOver(mhz, cu.cpuUsedMhz)
    && k * size.memoryMB <= LeftOver(mb, cu.memoryUsedMb)
  }

  /** For a size that is given, the estimate is the largest number of such VMs that the figures hold. */
  lemma EstimateHoldsVMsIff(k: nat, ds: DatastoreUtilization, cu: ComputeUtilization, size: VMSize, useEffective: bool)
    requires size.diskSizeGB > 0 && size.numCPUs > 0 && size.memoryMB > 0
    requires NoTruncation(ds, cu, size, useEffective)
    ensures HoldsVMs(k, ds, cu, size, useEffective) <==> k <= Estimate(ds, cu, size, useEffective)
  {
    EstimateIsGreatestFit(k, ds, cu, size, useEffective);
    hide Estimate, NoTruncation;
  }

  /** A size that is left out counts as 120 GB of disk, two CPUs, and 4096 MB of memory. */
  lemma MissingSizesAreDefaults(ds: DatastoreUtilization, cu: ComputeUtilization, size: VMSize, useEffective: bool)
    ensures Estimate(ds, cu, size, useEffective) ==
            Estimate(ds, cu, VMSize(if size.numCPUs == 0 then 2 else size.numCPUs,
                                    if size.memoryMB == 0 then 4096 else size.memoryMB,
                                    if size.diskSizeGB == 0 then 120 else size.diskSizeGB), useEffective)
  {
    hide Yield, Least;
  }

  /** When no quotient is truncated: the figures, in units of the size, are below 2^31. */
  lemma NoTruncationIff(ds: DatastoreUtilization, cu: ComputeUtilization, size: VMSize, useEffective: bool)
    requires size.diskSizeGB > 0 && size.numCPUs > 0 && size.memoryMB > 0 && ds.freeSpaceGB >= 0
    ensures var mhz := if useEffective then cu.cpuEffectiveMhz else cu.cpuTotalMhz;
            var mb := if useEffective then cu.memoryEffectiveMb else cu.memoryTotalMb;
            NoTruncation(ds, cu, size, useEffective) <==>
            && ds.freeSpaceGB < 0x8000_0000 * size.diskSizeGB
            && LeftOver(mhz, cu.cpuUsedMhz) < 0x8000_0000 * (size.numCPUs * 2000)
            && LeftOver(mb, cu.memoryUsedMb) < 0x8000_0000 * size.memoryMB
  {
    var mhz := if useEffective then cu.cpuEffectiveMhz else cu.cpuTotalMhz;
    var mb := if useEffective then cu.memoryEffectiveMb else cu.memoryTotalMb;
    StorableIff(ds.freeSpaceGB, size.diskSizeGB);
    StorableIff(LeftOver(mhz, cu.cpuUsedMhz), size.numCPUs * 2000);
    StorableIff(LeftOver(mb, cu.memoryUsedMb), size.memoryMB);
    hide Storable;
  }

  lemma StorableIff(a: nat, d: int)
    requires d > 0
    ensures Storable(a, d) <==> a < 0x8000_0000 * d
  {
    DivisionFits(0x8000_0000, d, a);
    DivisionFits(0, d, a);
  }

  /** A size that resolves to zero or less estimates nothing. */
  lemma NonPositiveSizeEstimatesZero(ds: DatastoreUtilization, cu: ComputeUtilization, size: VMSize, useEffective: bool)
    requires !Sized(size)
    ensures Estimate(ds, cu, size, useEffective) == 0
  {
  }

  /** The int32 conversion matters: a huge datastore is estimated at nothing. */
  lemma TruncationLosesCapacity()
    ensures exists ds, cu, size ::
              Sized(size) && Fits(0x8000_0000, ds, cu, size, false) && Estimate(ds, cu, size, false) == 0
  {
    var free := 120 * 0x8000_0000;
    var ds := DatastoreUtilization(free, free, 0, 0);
    var cu := ComputeUtilization(4000 * 0x8000_0000, 0, 0, 0, 0, 4096 * 0x8000_0000, 0, 0, 0, 0);
    var size := VMSize(0, 0, 0);
    assert free / 120 == 0x8000_0000;
    assert Fits(0x8000_0000, ds, cu, size, false);
    assert Estimate(ds, cu, size, false) == 0;
  }

  /** How many VMs the free storage, CPU and memory hold together, before any conversion. */
  function RealFit(ds: DatastoreUtilization, cu: ComputeUtilization, size: VMSize, useEffective: bool): int
    requires Sized(size)
  {
    Least(Max0(ds.freeSpaceGB) / DiskPerVM(size),
          Max0(CpuFor(cu, useEffective)) / MhzPerVM(size),
          Max0(MemoryFor(cu, useEffective)) / MemoryPerVM(size))
  }

  lemma FitsRealFit(k: nat, ds: DatastoreUtilization, cu: ComputeUtilization, size: VMSize, useEffective: bool)
    requires Sized(size)
    ensures Fits(k, ds, cu, size, useEffective) <==> k <= RealFit(ds, cu, size, useEffective)
    ensures RealFit(ds, cu, size, useEffective) >= 0
  {
    DivisionFits(k, DiskPerVM(size), Max0(ds.freeSpaceGB));
    DivisionFits(k, MhzPerVM(size), Max0(CpuFor(cu, useEffective)));
    DivisionFits(k, MemoryPerVM(size), Max0(MemoryFor(cu, useEffective)));
    DivisionFits(0, DiskPerVM(size), Max0(ds.freeSpaceGB));
    DivisionFits(0, MhzPerVM(size), Max0(CpuFor(cu, useEffective)));
    DivisionFits(0, MemoryPerVM(size), Max0(MemoryFor(cu, useEffective)));
    hide DiskPerVM, MhzPerVM, MemoryPerVM, CpuFor, MemoryFor;
  }

  /** No quotient reads less than the true fit once it is stored in an int32. */
  predicate TruncationHarmless(q0: int, q1: int, q2: int) {
    var m := Least(q0, q1, q2);
    m == 0 || (m <= MAX_INT32 && m <= Wrap32(q0) && m <= Wrap32(q1) && m <= Wrap32(q2))
  }

  lemma LeastOfWrapped(q0: nat, q1: nat, q2: nat)
    ensures Max0(Least(Wrap32(q0), Wrap32(q1), Wrap32(q2))) == Least(q0, q1, q2) <==> TruncationHarmless(q0, q1, q2)
  {
    assert forall q: nat :: q <= MAX_INT32 ==> Wrap32(q) == q;
    hide Wrap32;
  }

  /**
   * Exactly when the estimate is the number of VMs that fit: the true number is an int32, and none of
   * the three quotients is truncated to less.
   */
  lemma GreatestFitIff(ds: DatastoreUtilization, cu: ComputeUtilization, size: VMSize, useEffective: bool)
    requires Sized(size) && ds.freeSpaceGB >= 0
    ensures (forall k: nat :: Fits(k, ds, cu, size, useEffective) <==> k <= Estimate(ds, cu, size, useEffective)) <==>
            TruncationHarmless(Max0(ds.freeSpaceGB) / DiskPerVM(size),
                               Max0(CpuFor(cu, useEffective)) / MhzPerVM(size),
                               Max0(MemoryFor(cu, useEffective)) / MemoryPerVM(size))
  {
    var fit, estimate := RealFit(ds, cu, size, useEffective), Estimate(ds, cu, size, useEffective);
    forall k: nat ensures Fits(k, ds, cu, size, useEffective) <==> k <= fit {
      FitsRealFit(k, ds, cu, size, useEffective);
    }
    FitsRealFit(0, ds, cu, size, useEffective);
    var q0, q1 := ds.freeSpaceGB / DiskPerVM(size), Max0(CpuFor(cu, useEffective)) / MhzPerVM(size);
    var q2 := Max0(MemoryFor(cu, useEffective)) / MemoryPerVM(size);
    DivisionFits(0, DiskPerVM(size), ds.freeSpaceGB);
    DivisionFits(0, MhzPerVM(size), Max0(CpuFor(cu, useEffective)));
    DivisionFits(0, MemoryPerVM(size), Max0(MemoryFor(cu, useEffective)));
    LeastOfWrapped(q0, q1, q2);
    assert estimate == Max0(Least(Wrap32(q0), Wrap32(q1), Wrap32(q2)));
    hide Wrap32, DiskPerVM, MhzPerVM, MemoryPerVM, CpuFor, MemoryFor, Fits, Estimate, RealFit, Least;
    if estimate != fit {
      var k := if estimate < fit then fit else estimate;
      assert Fits(k, ds, cu, size, useEffective) <==> k <= fit;
    }
  }

  function Consume(k: nat, ds: DatastoreUtilization, size: VMSize): DatastoreUtilization {
    ds.(freeSpaceGB := ds.freeSpaceGB - k * DiskPerVM(size))
  }

  function Load(k: nat, cu: ComputeUtilization, size: VMSize): ComputeUtilization {
    cu.(cpuUsedMhz := cu.cpuUsedMhz + k * MhzPerVM(size), memoryUsedMb := cu.memoryUsedMb + k * MemoryPerVM(size))
  }

  /** Creating k of the n estimated VMs leaves an estimate of exactly n - k. */
  lemma ConsumeLowersEstimate(k: nat, ds: DatastoreUtilization, cu: ComputeUtilization, size: VMSize,
      useEffective: bool)
    requires NoTruncation(ds, cu, size, useEffective)
    requires k <= Estimate(ds, cu, size, useEffective)
    ensures Estimate(Consume(k, ds, size), Load(k, cu, size), size, useEffective) ==
            Estimate(ds, cu, size, useEffective) - k
  {
    if k == 0 {
      assert Consume(k, ds, size) == ds && Load(k, cu, size) == cu;
    } else {
      var ds', cu' := Consume(k, ds, size), Load(k, cu, size);
      LeastConsumed(k, DiskPerVM(size), ds.freeSpaceGB, ds'.freeSpaceGB,
                    MhzPerVM(size), CpuFor(cu, useEffective), CpuFor(cu', useEffective),
                    MemoryPerVM(size), MemoryFor(cu, useEffective), MemoryFor(cu', useEffective));
    }
  }

  /** Consume and Load, resource by resource. */
  lemma LeastConsumed(k: nat, d0: int, a0: int, b0: int, d1: int, a1: int, b1: int, d2: int, a2: int, b2: int)
    requires Storable(a0, d0) && Storable(Max0(a1), d1) && Storable(Max0(a2), d2)
    requires b0 == a0 - k * d0 && b1 == a1 - k * d1 && b2 == a2 - k * d2
    requires 1 <= k <= Max0(Least(Yield(a0, d0), Yield(Max0(a1), d1), Yield(Max0(a2), d2)))
    ensures Least(Yield(b0, d0), Yield(Max0(b1), d1), Yield(Max0(b2), d2)) ==
            Least(Yield(a0, d0), Yield(Max0(a1), d1), Yield(Max0(a2), d2)) - k
  {
    YieldIsGreatest(1, a0, d0);
    ConsumeYield(k, a0, d0);
    ConsumeYield(k, a1, d1);
    ConsumeYield(k, a2, d2);
  }

  lemma DistributeMinus(a: int, b: int, d: int)
    ensures (a - b) * d == a * d - b * d
  {
  }

  lemma QuotientIs(a: int, d: int, q: int)
    requires d > 0 && q * d <= a < (q + 1) * d
    ensures a / d == q
  {
    DivisionFits(q, d, a);
    DivisionFits(q + 1, d, a);
  }

  /** Taking k divisors off takes k off the quotient. */
  lemma QuotientLess(a: int, d: int, k: int)
    requires d > 0
    ensures (a - k * d) / d == a / d - k
  {
    var q := a / d;
    DivisionFits(q, d, a);
    DivisionFits(q + 1, d, a);
    DistributeMinus(q, k, d);
    DistributeMinus(q + 1, k, d);
    var left, low, high := a - k * d, (q - k) * d, (q + 1 - k) * d;
    assert low <= left < high;
    assert q - k + 1 == q + 1 - k;
    QuotientIs(left, d, q - k);
  }

  lemma YieldIsQuotient(a: int, d: int)
    requires a >= 0 && d > 0 && InInt32(a / d)
    ensures Storable(a, d) && Yield(a, d) == a / d
  {
    hide Wrap32;
  }

  lemma StorableQuotient(a: int, d: int)
    requires a >= 0 && Storable(a, d)
    ensures InInt32(a / d) && a / d >= 0
  {
    DivisionFits(0, d, a);
  }

  lemma ConsumeYield(k: nat, available: int, perVM: int)
    requires Storable(Max0(available), perVM)
    requires 1 <= k <= Yield(Max0(available), perVM)
    ensures available >= 0 && available - k * perVM >= 0
    ensures Yield(available - k * perVM, perVM) == Yield(available, perVM) - k
  {
    var a, used := Max0(available), k * perVM;
    StorableQuotient(a, perVM);
    YieldIsQuotient(a, perVM);
    DivisionFits(1, perVM, a);
    DivisionFits(k, perVM, a);
    assert perVM > 0;
    hide GoDiv, Wrap32, Yield, Storable;
    assert a >= 1 * perVM && available == a && used <= a;
    QuotientLess(a, perVM, k);
    YieldIsQuotient(a - used, perVM);
  }

  /** More free resources never lower the estimate. */
  lemma EstimateMonotone(
    ds: DatastoreUtilization, cu: ComputeUtilization, ds': DatastoreUtilization, cu': ComputeUtilization,
    size: VMSize, mode: bool, mode': bool)
    requires NoTruncation(ds, cu, size, mode) && NoTruncation(ds', cu', size, mode')
    requires ds.freeSpaceGB <= ds'.freeSpaceGB
    requires CpuFor(cu, mode) <= CpuFor(cu', mode') && MemoryFor(cu, mode) <= MemoryFor(cu', mode')
    ensures Estimate(ds, cu, size, mode) <= Estimate(ds', cu', size, mode')
  {
    var n := Estimate(ds, cu, size, mode);
    EstimateIsGreatestFit(n, ds, cu, size, mode);
    EstimateIsGreatestFit(n, ds', cu', size, mode');
  }

  /** Allowing for HA overhead is never more optimistic than ignoring it. */
  lemma EffectiveIsConservative(ds: DatastoreUtilization, cu: ComputeUtilization, size: VMSize)
    requires NoTruncation(ds, cu, size, true) && NoTruncation(ds, cu, size, false)
    requires cu.cpuEffectiveMhz <= cu.cpuTotalMhz && cu.memoryEffectiveMb <= cu.memoryTotalMb
    ensures Estimate(ds, cu, size, true) <= Estimate(ds, cu, size, false)
  {
    EstimateMonotone(ds, cu, ds, cu, size, true, false);
  }

  /* ---------- the figures it is computed from ---------- */

  /** The arithmetic of GetDatastoreUtilization. */
  function DatastoreFigures(capacityBytes: int, freeSpaceBytes: int): DatastoreUtilization {
    var usedBytes := capacityBytes - freeSpaceBytes;
    var capacityGB, usedGB := GoDiv(capacityBytes, GIB), GoDiv(usedBytes, GIB);
    DatastoreUtilization(capacityGB, GoDiv(freeSpaceBytes, GIB), usedGB, Percent(usedGB, capacityGB))
  }

  /** Rounding loses at most one gigabyte between used and free, and the percentage is one. */
  lemma DatastoreConserved(capacityBytes: int, freeSpaceBytes: int)
    requires 0 <= freeSpaceBytes <= capacityBytes
    ensures var d := DatastoreFigures(capacityBytes, freeSpaceBytes);
            && d.capacityGB - 1 <= d.usedGB + d.freeSpaceGB <= d.capacityGB
            && 0 <= d.percentUsed <= 100
            && (freeSpaceBytes == capacityBytes ==> d.percentUsed == 0)
  {
    RoundingLoss(capacityBytes, freeSpaceBytes, GIB);
    var d := DatastoreFigures(capacityBytes, freeSpaceBytes);
    if d.capacityGB > 0 {
      PercentBound(d.usedGB, d.capacityGB);
    }
  }

  /** The figures are the bytes in whole gigabytes, and usage in whole percent. */
  lemma DatastoreRounded(capacityBytes: int, freeSpaceBytes: int)
    requires 0 <= freeSpaceBytes <= capacityBytes
    ensures var d, gib := DatastoreFigures(capacityBytes, freeSpaceBytes), 1073741824;
            && d.capacityGB * gib <= capacityBytes < (d.capacityGB + 1) * gib
            && d.freeSpaceGB * gib <= freeSpaceBytes < (d.freeSpaceGB + 1) * gib
            && d.usedGB * gib <= capacityBytes - freeSpaceBytes < (d.usedGB + 1) * gib
            && WholePercent(d.percentUsed, d.usedGB, d.capacityGB)
  {
    WholeUnits(capacityBytes, GIB);
    WholeUnits(freeSpaceBytes, GIB);
    WholeUnits(capacityBytes - freeSpaceBytes, GIB);
    RoundingLoss(capacityBytes, freeSpaceBytes, GIB);
    PercentIsWhole(GoDiv(capacityBytes - freeSpaceBytes, GIB), GoDiv(capacityBytes, GIB));
    hide GoDiv, Percent;
  }

  lemma WholeUnits(a: int, unit: int)
    requires a >= 0 && unit > 0
    ensures GoDiv(a, unit) * unit <= a < (GoDiv(a, unit) + 1) * unit
  {
    DivisionFits(a / unit, unit, a);
    DivisionFits(a / unit + 1, unit, a);
  }

  /** The percentage rounded down; nothing of nothing is none. */
  predicate WholePercent(percent: int, used: int, total: int) {
    if total > 0 then percent * total <= used * 100 < (percent + 1) * total else percent == 0
  }

  lemma PercentIsWhole(used: int, total: int)
    requires 0 <= used <= total
    ensures WholePercent(Percent(used, total), used, total)
  {
    if total > 0 {
      var hundredfold := used * 100;
      PercentBound(used, total);
      WholeUnits(hundredfold, total);
      DivisionFits(101, total, hundredfold);
      DivisionFits(0, total, hundredfold);
      assert GoDiv(hundredfold, total) == hundredfold / total && 0 <= hundredfold / total <= 100;
      hide GoDiv, Wrap32;
    }
  }

  lemma RoundingLoss(capacity: int, free: int, unit: int)
    requires 0 <= free <= capacity && unit > 0
    ensures var used := GoDiv(capacity - free, unit);
            && 0 <= used <= GoDiv(capacity, unit)
            && GoDiv(capacity, unit) - 1 <= used + GoDiv(free, unit) <= GoDiv(capacity, unit)
            && (free == capacity ==> used == 0)
  {
    DivisionAdds(capacity - free, free, unit);
    DivisionFits(0, unit, free);
    DivisionFits(0, unit, capacity - free);
    assert 0 / unit == 0 by { DivisionFits(0, unit, 0); DivisionFits(1, unit, 0); }
  }

  /** Dividing a sum loses at most one against dividing its parts. */
  lemma DivisionAdds(a: int, b: int, unit: int)
    requires unit > 0
    ensures (a + b) / unit - 1 <= a / unit + b / unit <= (a + b) / unit
  {
    var p, q, c := a / unit, b / unit, (a + b) / unit;
    DivisionFits(p, unit, a);
    DivisionFits(q, unit, b);
    DivisionFits(p + q, unit, a + b);
    assert (p + q) * unit == p * unit + q * unit;
    DivisionFits(p + 1, unit, a);
    DivisionFits(q + 1, unit, b);
    DivisionFits(p + q + 2, unit, a + b);
    assert (p + q + 2) * unit == (p + 1) * unit + (q + 1) * unit;
  }

  lemma PercentBound(used: int, total: int)
    requires 0 <= used <= total && total > 0
    ensures 0 <= Percent(used, total) <= 100
  {
    var hundredfold := used * 100;
    DivisionFits(0, total, hundredfold);
    DivisionFits(101, total, hundredfold);
    var q := hundredfold / total;
    assert GoDiv(hundredfold, total) == q && 0 <= q <= 100;
    hide GoDiv, Wrap32;
  }

  function SumCpu(hosts: seq<HostStats>): int {
    if hosts == [] then 0 else SumCpu(hosts[..|hosts| - 1]) + hosts[|hosts| - 1].cpuUsage
  }

  function SumMemory(hosts: seq<HostStats>): int {
    if hosts == [] then 0 else SumMemory(hosts[..|hosts| - 1]) + hosts[|hosts| - 1].memoryUsage
  }

  /** Each sum is that of its own figure, in any grouping of the hosts. */
  lemma {:induction false} SumsAdd(a: seq<HostStats>, b: seq<HostStats>)
    ensures SumCpu(a + b) == SumCpu(a) + SumCpu(b) && SumMemory(a + b) == SumMemory(a) + SumMemory(b)
    ensures |b| == 1 ==> SumCpu(b) == b[0].cpuUsage && SumMemory(b) == b[0].memoryUsage
  {
    if b == [] {
      assert a + b == a;
    } else {
      SumsAdd(a, b[..|b| - 1]);
      assert (a + b)[..|a + b| - 1] == a + b[..|b| - 1];
    }
  }

  predicate InInt64(n: int) {
    -0x8000_0000_0000_0000 <= n <= 0x7fff_ffff_ffff_ffff
  }

  /** Sums of int32 figures, and a hundred times them, stay in int64 for as many as 2^24 hosts. */
  lemma {:induction false} SumsBounded(hosts: seq<HostStats>)
    ensures -0x8000_0000 * |hosts| <= SumCpu(hosts) <= 0x8000_0000 * |hosts|
    ensures -0x8000_0000 * |hosts| <= SumMemory(hosts) <= 0x8000_0000 * |hosts|
  {
    if hosts != [] {
      SumsBounded(hosts[..|hosts| - 1]);
    }
  }

  /** What the figures of a cluster promise, given what was read from its summary and its hosts. */
  predicate ClusterFigures(u: ComputeUtilization, cpuTotal: Int32, memoryTotalMb: int, hosts: seq<HostStats>) {
    && u.cpuUsedMhz == SumCpu(hosts) && u.memoryUsedMb == SumMemory(hosts)
    && u.cpuTotalMhz == cpuTotal && u.memoryTotalMb == memoryTotalMb
    && (u.cpuAvailableMhz + u.cpuUsedMhz == if u.cpuUsedMhz <= cpuTotal then cpuTotal else u.cpuUsedMhz)
    && (u.memoryAvailableMb + u.memoryUsedMb ==
        if u.memoryUsedMb <= memoryTotalMb then memoryTotalMb else u.memoryUsedMb)
    && (0 <= u.cpuUsedMhz <= cpuTotal ==> WholePercent(u.cpuPercentUsed, u.cpuUsedMhz, cpuTotal))
    && (0 <= u.memoryUsedMb <= memoryTotalMb ==> WholePercent(u.memoryPercentUsed, u.memoryUsedMb, memoryTotalMb))
    && (|hosts| <= 0x100_0000 ==> InInt64(u.cpuUsedMhz * 100) && InInt64(u.memoryUsedMb * 100))
  }

  /**
   * GetClusterUtilization: usage summed over hosts, availability clamped at zero. None is an error: the
   * cluster's properties cannot be read, or the stats of its hosts, if it has any.
   */
  method ClusterUtilization(found: bool, cpuTotal: Int32, cpuEffective: Int32, memoryTotalBytes: int,
                            memoryEffectiveBytes: int, hosts: seq<HostStats>, retrieved: bool)
    returns (result: Option<ComputeUtilization>)
    ensures result.Some? <==> found && (retrieved || hosts == [])
    ensures result.Some? ==>
              var u := result.value;
              && ClusterFigures(u, cpuTotal, GoDiv(memoryTotalBytes, 0x10_0000), hosts)
              && u.cpuEffectiveMhz == cpuEffective && u.memoryEffectiveMb == GoDiv(memoryEffectiveBytes, 0x10_0000)
              && forall ds, size :: Estimate(ds, u, size, false) == EstimateFromAvailable(ds, u, size)
  {
    hide GoDiv, Percent, Estimate, EstimateFromAvailable;
    if !found {
      return None;
    }
    var memoryTotalMb, memoryEffectiveMb := GoDiv(memoryTotalBytes, 0x10_0000), GoDiv(memoryEffectiveBytes, 0x10_0000);
    var cpuUsedMhz, memoryUsedMb := 0, 0;
    if |hosts| > 0 {
      if !retrieved {
        return None;
      }
      for i := 0 to |hosts|
        invariant cpuUsedMhz == SumCpu(hosts[..i]) && memoryUsedMb == SumMemory(hosts[..i])
      {
        assert hosts[..i + 1][..i] == hosts[..i];
        cpuUsedMhz := cpuUsedMhz + hosts[i].cpuUsage;
        memoryUsedMb := memoryUsedMb + hosts[i].memoryUsage;
      }
      assert hosts[..|hosts|] == hosts;
    }
    SumsBounded(hosts);
    var cpuAvailableMhz, memoryAvailableMb := cpuTotal - cpuUsedMhz, memoryTotalMb - memoryUsedMb;
    if cpuAvailableMhz < 0 {
      cpuAvailableMhz := 0;
    }
    if memoryAvailableMb < 0 {
      memoryAvailableMb := 0;
    }
    var u := ComputeUtilization(
      cpuTotal, cpuEffective, cpuUsedMhz, cpuAvailableMhz, Percent(cpuUsedMhz, cpuTotal),
      memoryTotalMb, memoryEffectiveMb, memoryUsedMb, memoryAvailableMb, Percent(memoryUsedMb, memoryTotalMb));
    if 0 <= cpuUsedMhz <= cpuTotal { PercentIsWhole(cpuUsedMhz, cpuTotal); }
    if 0 <= memoryUsedMb <= memoryTotalMb { PercentIsWhole(memoryUsedMb, memoryTotalMb); }
    PublishedAvailability(u);
    return Some(u);
  }

  /** Availability that is total minus usage, or nothing, is what the estimate works from. */
  lemma PublishedAvailability(u: ComputeUtilization)
    requires u.cpuAvailableMhz == Max0(u.cpuTotalMhz - u.cpuUsedMhz)
    requires u.memoryAvailableMb == Max0(u.memoryTotalMb - u.memoryUsedMb)
    ensures forall ds, size :: Estimate(ds, u, size, false) == EstimateFromAvailable(ds, u, size)
  {
    hide Yield, Least;
  }

  /** What the published availability figures promise, read without going through total and used. */
  function EstimateFromAvailable(ds: DatastoreUtilization, cu: ComputeUtilization, size: VMSize): int {
    Estimate(ds, cu.(cpuTotalMhz := cu.cpuAvailableMhz, cpuUsedMhz := 0,
                     memoryTotalMb := cu.memoryAvailableMb, memoryUsedMb := 0), size, false)
  }
}
