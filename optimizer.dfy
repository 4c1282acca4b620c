/**
 * `otimizarGrade`: a fresh grid, the required total, the allocation walk
 * over the demand table, the double-booking scan, and the efficiency figure.
 */
module Optimizer {
  import opened Domain
  import opened Grids
  import opened OrderedMaps
  import opened Demands
  import opened Allocation
  import opened Detection

  // ---------------------------------------------------------------------------
  // Efficiency

  /**
   * `Math.round(alocados / necessarios * 100)`: a whole percentage, or the
   * JavaScript values `NaN` (0 / 0) and `Infinity` (positive / 0).
   */
  datatype Efficiency = Percent(p: int) | NaN | Infinity

  /**
   * The percentage rounded half up, computed exactly on integers:
   * `p` is the integer with p <= 100a/r + 1/2 < p + 1.
   */
  function EfficiencyOf(a: nat, r: int): (e: Efficiency)
    ensures r == 0 ==> e == (if a == 0 then NaN else Infinity)
    ensures r > 0 ==> e.Percent? && 2 * r * e.p <= 200 * a + r < 2 * r * (e.p + 1)
    ensures r < 0 ==> e.Percent? && 2 * r * (e.p + 1) < 200 * a + r <= 2 * r * e.p
  {
    if r == 0 then (if a == 0 then NaN else Infinity)
    else if r > 0 then Percent((200 * a + r) / (2 * r))
    else Percent((-(200 * a + r)) / (-2 * r))
  }

  lemma PositiveFactor(x: int, y: int)
    requires x > 0 && x * y > 0
    ensures y > 0
  {
  }

  /** With no more allocated than required, the efficiency is between 0 and 100, and exactly 100 when all is met. */
  lemma EfficiencyBounds(a: nat, r: int)
    requires 0 < r && a <= r
    ensures EfficiencyOf(a, r).Percent?
    ensures 0 <= EfficiencyOf(a, r).p <= 100
    ensures a == r ==> EfficiencyOf(a, r).p == 100
    ensures a == 0 ==> EfficiencyOf(a, r).p == 0
  {
    var p := EfficiencyOf(a, r).p;
    var k := 2 * r;
    assert k * p <= 200 * a + r < k * (p + 1);
    PositiveFactor(k, p + 1);
    assert k * (101 - p) == k * 101 - k * p;
    PositiveFactor(k, 101 - p);
    if a == r {
      assert k * (p - 99) == k * (p + 1) - k * 100;
      PositiveFactor(k, p - 99);
    }
    if a == 0 {
      assert k * (1 - p) == k - k * p;
      PositiveFactor(k, 1 - p);
    }
  }

  // ---------------------------------------------------------------------------
  // The required total

  /** `Object.values(crianca).forEach(qtd => total += qtd)`, from `total`. */
  method SumNeeds(s: Needs, total: int) returns (t: int)
    ensures t == total + NeedsSum(s)
  {
    t := total;
    var j := 0;
    assert s[0..] == s;
    while j < |s|
      invariant 0 <= j <= |s|
      invariant total + NeedsSum(s) == t + NeedsSum(s[j..])
    {
      assert s[j..][0] == s[j] && s[j..][1..] == s[j + 1..];
      t := t + s[j].1;
      j := j + 1;
    }
    assert s[j..] == [];
  }

  /** `atendimentosNecessarios`: every quantity of every child, summed. */
  method SumRequired(d: Demand) returns (total: int)
    ensures total == DemandSum(d)
  {
    total := 0;
    var i := 0;
    assert d[0..] == d;
    while i < |d|
      invariant 0 <= i <= |d|
      invariant DemandSum(d) == total + DemandSum(d[i..])
    {
      assert d[i..][0] == d[i] && d[i..][1..] == d[i + 1..];
      total := SumNeeds(d[i].1, total);
      i := i + 1;
    }
    assert d[i..] == [];
  }

  // ---------------------------------------------------------------------------
  // The whole optimisation

  datatype Estatisticas = Estatisticas(atendimentosAlocados: nat, atendimentosNecessarios: int,
                                       eficiencia: Efficiency, conflitosDetectados: nat)

  /** What `otimizarGrade` hands to `setGradeOtimizada`, `setAnaliseConflitos` and `setMetricas`. */
  datatype Optimized = Optimized(grade: Grid, conflitos: seq<Conflict>, estatisticas: Estatisticas)

  /** The allocation walk from the empty grid, then the scan of the grid it leaves. */
  function OptimizeSpec(cat: Catalog, demand: Demand): Optimized {
    var o := AllocateAll(EmptyGrid(), cat, Requirements(demand));
    var necessarios := DemandSum(demand);
    Optimized(o.grade, o.conflitos + Detect(o.grade),
              Estatisticas(o.alocados, necessarios, EfficiencyOf(o.alocados, necessarios),
                           |o.conflitos| + |Detect(o.grade)|))
  }

  /**
   * `otimizarGrade`, with the catalog and the demand table as parameters and
   * the three state setters replaced by the returned value.
   */
  method Optimize(cat: Catalog, demand: Demand) returns (r: Optimized)
    ensures r == OptimizeSpec(cat, demand)
  {
    var grade := BuildEmpty();
    var necessarios := SumRequired(demand);
    var o, detectados := AllocateDemand(grade, cat, demand);
    var conflitos, total := DetectDoubleBookings(o.grade, o.conflitos, detectados);
    r := Optimized(o.grade, conflitos, Estatisticas(o.alocados, necessarios, EfficiencyOf(o.alocados, necessarios), total));
  }

  /**
   * The optimised grid has every cell and at most two sessions per cell, and
   * `atendimentosAlocados` is the number of sessions in it.
   */
  lemma OptimizeGrid(cat: Catalog, demand: Demand)
    ensures var r := OptimizeSpec(cat, demand);
      && Complete(r.grade) && WithinCapacity(r.grade)
      && r.estatisticas.atendimentosAlocados == CellCount(r.grade)
  {
    var e := EmptyGrid();
    AllocateAllSpec(e, cat, Requirements(demand));
    EmptyGridCount();
    assert WithinCapacity(e);
  }

  /**
   * `conflitosDetectados` is the number of conflicts reported; the
   * unmet-demand entries come first, then the double bookings, whose number
   * is the sessions minus, slot by slot, the distinct professionals.
   */
  lemma OptimizeConflicts(cat: Catalog, demand: Demand)
    ensures var r := OptimizeSpec(cat, demand);
      var falta := AllocateAll(EmptyGrid(), cat, Requirements(demand)).conflitos;
      && r.estatisticas.conflitosDetectados == |r.conflitos|
      && r.conflitos[..|falta|] == falta
      && (forall x :: x in falta ==> x.FaltaHorario? && x.faltante > 0)
      && (forall x :: x in r.conflitos[|falta|..] ==> x.ConflitoProfissional?)
      && |r.conflitos| - |falta| + WeekDistinct(r.grade, Dias) == CellCount(r.grade)
  {
    var o := AllocateAll(EmptyGrid(), cat, Requirements(demand));
    AllocateAllSpec(EmptyGrid(), cat, Requirements(demand));
    DetectCount(o.grade);
    var cs := o.conflitos + Detect(o.grade);
    assert cs[..|o.conflitos|] == o.conflitos && cs[|o.conflitos|..] == Detect(o.grade);
  }

  /** `atendimentosNecessarios` counts every quantity, also those later skipped for want of a professional. */
  lemma RequiredCountsEveryRequirement(cat: Catalog, demand: Demand)
    ensures OptimizeSpec(cat, demand).estatisticas.atendimentosNecessarios == QuantitySum(Requirements(demand))
  {
    RequirementsSum(demand);
  }

  /** With no negative quantity and a positive total, the efficiency is a percentage between 0 and 100. */
  lemma EfficiencyAtMost100(cat: Catalog, demand: Demand)
    requires forall i :: 0 <= i < |Requirements(demand)| ==> Requirements(demand)[i].quantidade >= 0
    requires DemandSum(demand) > 0
    ensures OptimizeSpec(cat, demand).estatisticas.eficiencia.Percent?
    ensures 0 <= OptimizeSpec(cat, demand).estatisticas.eficiencia.p <= 100
  {
    var o := AllocateAll(EmptyGrid(), cat, Requirements(demand));
    AllocateAllSpec(EmptyGrid(), cat, Requirements(demand));
    PositiveSumBound(Requirements(demand));
    RequirementsSum(demand);
    EfficiencyBounds(o.alocados, DemandSum(demand));
  }
}
