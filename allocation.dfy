/**
 * The allocation step of `otimizarGrade`: the service-to-professional table,
 * `alocarAtendimento` (first-fit placement of one requirement, days in order,
 * then the professional's listed times in order, at most two sessions per
 * child and slot) and the walk over the demand table.
 */
module Allocation {
  import opened Wrappers
  import opened Domain
  import opened Grids
  import opened Demands

  /** `mapeamentoProfissionais`: the professional id that serves each service type. */
  function ProfessionalFor(tipo: string): Option<string> {
    if tipo == "terapiaOcupacional" then Some("terapiaOcupacional")
    else if tipo == "psicopedagogia" then Some("psicopedagoga")
    else if tipo == "fisioterapia" then Some("fisioterapeuta")
    else if tipo == "psicologia" then Some("psicologa1")
    else if tipo == "at" then Some("at1")
    else None
  }

  // ---------------------------------------------------------------------------
  // First-fit placement of one requirement

  function DayCandidates(d: Day, ts: seq<Time>): seq<(Day, Time)> {
    if ts == [] then [] else [(d, ts[0])] + DayCandidates(d, ts[1..])
  }

  /** The (day, time) pairs `alocarAtendimento` visits: each day of `ds` in turn, its listed times in order. */
  function Candidates(w: Week, ds: seq<Day>): seq<(Day, Time)> {
    if ds == [] then [] else DayCandidates(ds[0], w.At(ds[0])) + Candidates(w, ds[1..])
  }

  function CellAt(p: (Day, Time), c: Child): Cell {
    Cell(p.0, p.1, c)
  }

  datatype Placement = Placement(grade: Grid, alocados: nat)

  /**
   * Visits the candidates in order while fewer than `need` sessions have been
   * placed, appending `a` to the child's list wherever it holds fewer than two.
   */
  function FirstFit(g: Grid, cs: seq<(Day, Time)>, c: Child, a: Appointment, need: int): Placement
    decreases |cs|
  {
    if need <= 0 || cs == [] then Placement(g, 0)
    else
      var k := CellAt(cs[0], c);
      if |Get(g, k)| < Capacity then
        var rest := FirstFit(Put(g, k, Get(g, k) + [a]), cs[1..], c, a, need - 1);
        Placement(rest.grade, rest.alocados + 1)
      else
        FirstFit(g, cs[1..], c, a, need)
  }

  /** `n` sessions already placed, then the placement `p`. */
  function After(n: nat, p: Placement): Placement {
    Placement(p.grade, n + p.alocados)
  }

  /** One candidate visited: with room and sessions still wanted, the session goes in. */
  function Step(g: Grid, k: Cell, a: Appointment, n: nat, q: int): Placement {
    if n < q && |Get(g, k)| < Capacity then Placement(Put(g, k, Get(g, k) + [a]), n + 1) else Placement(g, n)
  }

  /**
   * One step of the walk, stated on the walk's invariant: candidate j, whose
   * cell for the child is k, gets a session exactly when fewer than q are
   * placed and k has room, and first fit then goes on with the rest.
   */
  lemma FirstFitNext(final: Placement, g: Grid, n: nat, cs: seq<(Day, Time)>, j: nat, k: Cell, c: Child, a: Appointment, q: int)
    requires j < |cs| && k == CellAt(cs[j], c)
    requires final == After(n, FirstFit(g, cs[j..], c, a, q - n))
    ensures var s := Step(g, k, a, n, q);
      final == After(s.alocados, FirstFit(s.grade, cs[j + 1..], c, a, q - s.alocados))
  {
    assert cs[j..][0] == cs[j] && cs[j..][1..] == cs[j + 1..];
    if q - n <= 0 {
      FirstFitBounds(g, cs[j..], c, a, q - n);
      FirstFitBounds(g, cs[j + 1..], c, a, q - n);
    }
  }

  /** A requirement gets at most what it asks for and at most one session per candidate; asking for nothing changes nothing. */
  lemma {:induction false} FirstFitBounds(g: Grid, cs: seq<(Day, Time)>, c: Child, a: Appointment, need: int)
    ensures var r := FirstFit(g, cs, c, a, need);
      && (need <= 0 ==> r == Placement(g, 0))
      && r.alocados <= |cs|
      && (need > 0 ==> r.alocados <= need)
    decreases |cs|
  {
    if need > 0 && cs != [] {
      var k := CellAt(cs[0], c);
      if |Get(g, k)| < Capacity {
        FirstFitBounds(Put(g, k, Get(g, k) + [a]), cs[1..], c, a, need - 1);
      } else {
        FirstFitBounds(g, cs[1..], c, a, need);
      }
    }
  }

  /** The grid gains exactly the sessions counted. */
  lemma {:induction false} FirstFitCount(g: Grid, cs: seq<(Day, Time)>, c: Child, a: Appointment, need: int)
    requires forall p :: p in cs ==> HasSlot(g, p.0, p.1)
    ensures CellCount(FirstFit(g, cs, c, a, need).grade) == CellCount(g) + FirstFit(g, cs, c, a, need).alocados
    decreases |cs|
  {
    if need > 0 && cs != [] {
      var k := CellAt(cs[0], c);
      if |Get(g, k)| < Capacity {
        FirstFitCount(Put(g, k, Get(g, k) + [a]), cs[1..], c, a, need - 1);
        CellCountPut(g, k, Get(g, k) + [a]);
      } else {
        FirstFitCount(g, cs[1..], c, a, need);
      }
    }
  }

  /** Placement never puts a third session in a list, and a complete grid stays complete. */
  lemma {:induction false} FirstFitCapacity(g: Grid, cs: seq<(Day, Time)>, c: Child, a: Appointment, need: int)
    ensures WithinCapacity(g) ==> WithinCapacity(FirstFit(g, cs, c, a, need).grade)
    ensures Complete(g) ==> Complete(FirstFit(g, cs, c, a, need).grade)
    decreases |cs|
  {
    if need > 0 && cs != [] {
      var k := CellAt(cs[0], c);
      if |Get(g, k)| < Capacity {
        var g' := Put(g, k, Get(g, k) + [a]);
        PutSpec(g, k, Get(g, k) + [a]);
        FirstFitCapacity(g', cs[1..], c, a, need - 1);
        assert WithinCapacity(g) ==> WithinCapacity(g') by {
          if WithinCapacity(g) {
            forall k' ensures |Get(g', k')| <= Capacity {
              if k' != k {
                assert Get(g', k') == Get(g, k');
              }
            }
          }
        }
      } else {
        FirstFitCapacity(g, cs[1..], c, a, need);
      }
    }
  }

  /**
   * When no (day, time) pair is listed twice, every list is either unchanged
   * or child c's list at a candidate slot with the one session appended.
   */
  lemma {:induction false} FirstFitCells(g: Grid, cs: seq<(Day, Time)>, c: Child, a: Appointment, need: int)
    requires NoDuplicates(cs)
    ensures forall k :: var h := FirstFit(g, cs, c, a, need).grade;
      Get(h, k) == Get(g, k) ||
      (k.crianca == c && (k.dia, k.horario) in cs && Get(h, k) == Get(g, k) + [a])
    decreases |cs|
  {
    if need > 0 && cs != [] {
      NoDuplicatesTail(cs);
      var k0 := CellAt(cs[0], c);
      if |Get(g, k0)| < Capacity {
        var g' := Put(g, k0, Get(g, k0) + [a]);
        PutSpec(g, k0, Get(g, k0) + [a]);
        FirstFitCells(g', cs[1..], c, a, need - 1);
        FirstFitFrame(g', cs[1..], c, a, need - 1);
        assert (k0.dia, k0.horario) == cs[0];
      } else {
        FirstFitCells(g, cs[1..], c, a, need);
      }
    }
  }

  /** Slots that are not candidates are left as they were. */
  lemma {:induction false} FirstFitFrame(g: Grid, cs: seq<(Day, Time)>, c: Child, a: Appointment, need: int)
    ensures forall k: Cell :: (k.dia, k.horario) !in cs ==> Get(FirstFit(g, cs, c, a, need).grade, k) == Get(g, k)
    decreases |cs|
  {
    if need > 0 && cs != [] {
      var k := CellAt(cs[0], c);
      if |Get(g, k)| < Capacity {
        var g' := Put(g, k, Get(g, k) + [a]);
        FirstFitFrame(g', cs[1..], c, a, need - 1);
        forall k': Cell | (k'.dia, k'.horario) !in cs
          ensures Get(FirstFit(g, cs, c, a, need).grade, k') == Get(g, k')
        {
          assert (k'.dia, k'.horario) != cs[0] && (k'.dia, k'.horario) !in cs[1..];
          assert k' != k;
        }
      } else {
        FirstFitFrame(g, cs[1..], c, a, need);
        forall k': Cell | (k'.dia, k'.horario) !in cs
          ensures Get(FirstFit(g, cs, c, a, need).grade, k') == Get(g, k')
        {
          assert (k'.dia, k'.horario) !in cs[1..];
        }
      }
    }
  }

  /** The number of candidates whose list for child c has room. */
  function FreeCount(g: Grid, cs: seq<(Day, Time)>, c: Child): nat {
    if cs == [] then 0
    else (if |Get(g, CellAt(cs[0], c))| < Capacity then 1 else 0) + FreeCount(g, cs[1..], c)
  }

  lemma {:induction false} FreeCountFrame(g: Grid, h: Grid, cs: seq<(Day, Time)>, c: Child)
    requires forall p :: p in cs ==> Get(g, CellAt(p, c)) == Get(h, CellAt(p, c))
    ensures FreeCount(g, cs, c) == FreeCount(h, cs, c)
  {
    if cs != [] {
      FreeCountFrame(g, h, cs[1..], c);
    }
  }

  function Min(a: int, b: int): int {
    if a <= b then a else b
  }

  lemma NoDuplicatesTail<T>(xs: seq<T>)
    requires xs != [] && NoDuplicates(xs)
    ensures NoDuplicates(xs[1..]) && xs[0] !in xs[1..]
  {
    forall i, j | 0 <= i < j < |xs[1..]| ensures xs[1..][i] != xs[1..][j] {
      assert xs[1..][i] == xs[i + 1] && xs[1..][j] == xs[j + 1];
    }
    forall i | 0 <= i < |xs[1..]| ensures xs[1..][i] != xs[0] {
      assert xs[1..][i] == xs[i + 1];
    }
  }

  /**
   * When no (day, time) pair is listed twice, a requirement gets exactly as
   * many sessions as it asks for, or as many candidates as have room,
   * whichever is smaller; the shortfall is the rest.
   */
  lemma {:induction false} FirstFitExact(g: Grid, cs: seq<(Day, Time)>, c: Child, a: Appointment, need: int)
    requires NoDuplicates(cs)
    ensures FirstFit(g, cs, c, a, need).alocados == if need <= 0 then 0 else Min(need, FreeCount(g, cs, c))
    decreases |cs|
  {
    if need <= 0 || cs == [] {
    } else {
      NoDuplicatesTail(cs);
      var k := CellAt(cs[0], c);
      if |Get(g, k)| < Capacity {
        var g' := Put(g, k, Get(g, k) + [a]);
        FirstFitExact(g', cs[1..], c, a, need - 1);
        forall p | p in cs[1..] ensures Get(g', CellAt(p, c)) == Get(g, CellAt(p, c)) {
          assert p != cs[0];
        }
        FreeCountFrame(g', g, cs[1..], c);
      } else {
        FirstFitExact(g, cs[1..], c, a, need);
      }
    }
  }

  /** The index of the first candidate whose list for child c has room. */
  function FirstFree(g: Grid, cs: seq<(Day, Time)>, c: Child): (r: Option<nat>)
    ensures r.Some? ==> r.value < |cs| && |Get(g, CellAt(cs[r.value], c))| < Capacity
    ensures r.Some? ==> forall j :: 0 <= j < r.value ==> |Get(g, CellAt(cs[j], c))| >= Capacity
    ensures r.None? ==> forall j :: 0 <= j < |cs| ==> |Get(g, CellAt(cs[j], c))| >= Capacity
  {
    if cs == [] then None
    else if |Get(g, CellAt(cs[0], c))| < Capacity then Some(0)
    else match FirstFree(g, cs[1..], c)
      case None => None
      case Some(i) => Some(i + 1)
  }

  /**
   * First fit for a single session: it lands in the first candidate, in
   * visiting order, whose list has room, and nowhere when none has.
   */
  lemma {:induction false} FirstFitSingle(g: Grid, cs: seq<(Day, Time)>, c: Child, a: Appointment)
    ensures FirstFit(g, cs, c, a, 1) ==
      match FirstFree(g, cs, c)
      case None => Placement(g, 0)
      case Some(i) => Placement(Put(g, CellAt(cs[i], c), Get(g, CellAt(cs[i], c)) + [a]), 1)
    decreases |cs|
  {
    if cs != [] && |Get(g, CellAt(cs[0], c))| >= Capacity {
      FirstFitSingle(g, cs[1..], c, a);
    }
  }

  // ---------------------------------------------------------------------------
  // Candidate lists

  lemma {:induction false} DayCandidatesShape(d: Day, ts: seq<Time>)
    ensures |DayCandidates(d, ts)| == |ts|
    ensures forall i :: 0 <= i < |ts| ==> DayCandidates(d, ts)[i] == (d, ts[i])
  {
    if ts != [] {
      DayCandidatesShape(d, ts[1..]);
      assert forall i :: 0 < i < |ts| ==> ts[1..][i - 1] == ts[i];
    }
  }

  lemma {:induction false} CandidatesDays(w: Week, ds: seq<Day>)
    ensures forall p :: p in Candidates(w, ds) ==> p.0 in ds && p.1 in w.At(p.0)
  {
    if ds != [] {
      CandidatesDays(w, ds[1..]);
      DayCandidatesShape(ds[0], w.At(ds[0]));
    }
  }

  /** A week whose days each list a time at most once yields a duplicate-free visiting order. */
  lemma {:induction false} CandidatesNoDuplicates(w: Week, ds: seq<Day>)
    requires NoDuplicates(ds)
    requires forall d :: NoDuplicates(w.At(d))
    ensures NoDuplicates(Candidates(w, ds))
  {
    if ds != [] {
      NoDuplicatesTail(ds);
      CandidatesNoDuplicates(w, ds[1..]);
      CandidatesDays(w, ds[1..]);
      DayCandidatesShape(ds[0], w.At(ds[0]));
      var a := DayCandidates(ds[0], w.At(ds[0]));
      var b := Candidates(w, ds[1..]);
      forall i, j | 0 <= i < j < |a + b| ensures (a + b)[i] != (a + b)[j] {
        if j < |a| {
        } else if i < |a| {
          assert (a + b)[j] in b;
        } else {
          assert (a + b)[i] == b[i - |a|] && (a + b)[j] == b[j - |a|];
        }
      }
    }
  }

  /** The cell (Segunda, first listed time) is the first candidate of every week listing a Monday time. */
  lemma CandidatesStartMonday(w: Week)
    requires w.segunda != []
    ensures Candidates(w, Dias) != [] && Candidates(w, Dias)[0] == (Segunda, w.segunda[0])
  {
    assert Dias[0] == Segunda;
  }

  lemma {:induction false} CandidatesOfEmptyWeek(w: Week, ds: seq<Day>)
    requires forall d :: w.At(d) == []
    ensures Candidates(w, ds) == []
  {
    if ds != [] {
      CandidatesOfEmptyWeek(w, ds[1..]);
    }
  }

  // ---------------------------------------------------------------------------
  // One requirement, and the whole demand table

  /** A requirement is allocated at all: positive quantity, a mapped id, and that id in the catalog. */
  predicate Active(cat: Catalog, r: Requirement) {
    r.quantidade > 0 && ProfessionalFor(r.tipo).Some? && ProfessionalFor(r.tipo).value in cat
  }

  /** The session pushed for r: its type, the professional's name and colour. */
  function SessionFor(cat: Catalog, r: Requirement): Appointment
    requires Active(cat, r)
  {
    var p := cat[ProfessionalFor(r.tipo).value];
    Appointment(r.tipo, p.nome, p.cor)
  }

  function AvailabilityFor(cat: Catalog, r: Requirement): Week
    requires Active(cat, r)
  {
    cat[ProfessionalFor(r.tipo).value].disponibilidade
  }

  datatype Allocated = Allocated(grade: Grid, alocados: nat, conflitos: seq<Conflict>)

  function Shortfall(cat: Catalog, r: Requirement, alocados: nat): seq<Conflict>
    requires Active(cat, r)
  {
    if alocados < r.quantidade then
      [FaltaHorario(r.tipo, cat[ProfessionalFor(r.tipo).value].nome, r.crianca,
                    r.quantidade, alocados, r.quantidade - alocados)]
    else []
  }

  /** The effect of one `Object.entries` step of the allocation walk. */
  function AllocateOne(g: Grid, cat: Catalog, r: Requirement): Allocated {
    if !Active(cat, r) then Allocated(g, 0, [])
    else
      var fit := FirstFit(g, Candidates(AvailabilityFor(cat, r), Dias), r.crianca, SessionFor(cat, r), r.quantidade);
      Allocated(fit.grade, fit.alocados, Shortfall(cat, r, fit.alocados))
  }

  /** Unmet demand is reported exactly when an allocated requirement falls short, with the shortfall; an inactive requirement changes nothing. */
  lemma AllocateOneConflicts(g: Grid, cat: Catalog, r: Requirement)
    ensures var o := AllocateOne(g, cat, r);
      && (!Active(cat, r) ==> o == Allocated(g, 0, []))
      && (o.conflitos != [] <==> Active(cat, r) && o.alocados < r.quantidade)
      && (o.conflitos != [] ==>
            && o.conflitos == [FaltaHorario(r.tipo, cat[ProfessionalFor(r.tipo).value].nome, r.crianca,
                                            r.quantidade, o.alocados, r.quantidade - o.alocados)]
            && o.conflitos[0].faltante > 0)
      && (Active(cat, r) ==> o.alocados <= r.quantidade)
  {
    if Active(cat, r) {
      var cs, a := Candidates(AvailabilityFor(cat, r), Dias), SessionFor(cat, r);
      FirstFitBounds(g, cs, r.crianca, a, r.quantidade);
    }
  }

  /** One step keeps capacity and completeness and, on a complete grid, counts exactly the sessions it adds. */
  lemma AllocateOneGrid(g: Grid, cat: Catalog, r: Requirement)
    ensures var o := AllocateOne(g, cat, r);
      && (Complete(g) ==> CellCount(o.grade) == CellCount(g) + o.alocados)
      && (WithinCapacity(g) ==> WithinCapacity(o.grade))
      && (Complete(g) ==> Complete(o.grade))
  {
    if Active(cat, r) {
      var cs, a := Candidates(AvailabilityFor(cat, r), Dias), SessionFor(cat, r);
      var fit := FirstFit(g, cs, r.crianca, a, r.quantidade);
      assert AllocateOne(g, cat, r).grade == fit.grade && AllocateOne(g, cat, r).alocados == fit.alocados;
      if Complete(g) {
        CompleteSlots(g);
        FirstFitCount(g, cs, r.crianca, a, r.quantidade);
      }
      FirstFitCapacity(g, cs, r.crianca, a, r.quantidade);
    }
  }

  /** A professional with no listed time anywhere leaves the whole requirement unmet. */
  lemma UnmetWhenNoAvailability(g: Grid, cat: Catalog, r: Requirement)
    requires Active(cat, r)
    requires forall d :: AvailabilityFor(cat, r).At(d) == []
    ensures AllocateOne(g, cat, r) ==
      Allocated(g, 0, [FaltaHorario(r.tipo, cat[ProfessionalFor(r.tipo).value].nome, r.crianca,
                                    r.quantidade, 0, r.quantidade)])
  {
    CandidatesOfEmptyWeek(AvailabilityFor(cat, r), Dias);
  }

  /** The allocation walk over a requirement list, in order. */
  function AllocateAll(g: Grid, cat: Catalog, rs: seq<Requirement>): Allocated
    decreases |rs|
  {
    if rs == [] then Allocated(g, 0, [])
    else
      var one := AllocateOne(g, cat, rs[0]);
      var rest := AllocateAll(one.grade, cat, rs[1..]);
      Allocated(rest.grade, one.alocados + rest.alocados, one.conflitos + rest.conflitos)
  }

  /** The sum of the positive quantities. */
  function PositiveSum(rs: seq<Requirement>): nat {
    if rs == [] then 0
    else (if rs[0].quantidade > 0 then rs[0].quantidade else 0) + PositiveSum(rs[1..])
  }

  /**
   * The walk keeps capacity and completeness, on a complete grid counts
   * exactly the sessions it adds, never exceeds the positive demand, and
   * reports only unmet demand.
   */
  lemma {:induction false} AllocateAllSpec(g: Grid, cat: Catalog, rs: seq<Requirement>)
    ensures var o := AllocateAll(g, cat, rs);
      && (Complete(g) ==> CellCount(o.grade) == CellCount(g) + o.alocados)
      && o.alocados <= PositiveSum(rs)
      && (WithinCapacity(g) ==> WithinCapacity(o.grade))
      && (Complete(g) ==> Complete(o.grade))
      && (forall x :: x in o.conflitos ==> x.FaltaHorario? && x.faltante > 0)
      && |o.conflitos| <= |rs|
    decreases |rs|
  {
    if rs != [] {
      var one := AllocateOne(g, cat, rs[0]);
      AllocateOneConflicts(g, cat, rs[0]);
      AllocateOneGrid(g, cat, rs[0]);
      AllocateAllSpec(one.grade, cat, rs[1..]);
    }
  }

  lemma {:induction false} PositiveSumBound(rs: seq<Requirement>)
    requires forall i :: 0 <= i < |rs| ==> rs[i].quantidade >= 0
    ensures PositiveSum(rs) == QuantitySum(rs)
  {
    if rs != [] {
      PositiveSumBound(rs[1..]);
    }
  }

  // ---------------------------------------------------------------------------
  // The loops of `alocarAtendimento` and of the walk

  /**
   * The inner loop of `alocarAtendimento`: the professional's times `ts` on
   * day d, in order, stopping once `quantidade` sessions are placed. Followed
   * by any candidates `rest`, it does what first fit does before reaching them.
   */
  /** The body of the inner loop: the guard `alocados < quantidade`, the capacity check, the push. */
  method Visit(g: Grid, k: Cell, a: Appointment, n: nat, q: int) returns (grade: Grid, alocados: nat)
    ensures Placement(grade, alocados) == Step(g, k, a, n, q)
  {
    grade, alocados := g, n;
    if alocados < q {
      if |Get(grade, k)| < Capacity {
        grade := Put(grade, k, Get(grade, k) + [a]);
        alocados := alocados + 1;
      }
    }
  }

  method AllocateDay(g: Grid, d: Day, ts: seq<Time>, ghost rest: seq<(Day, Time)>, crianca: Child, appt: Appointment,
                     n: nat, quantidade: int)
    returns (grade: Grid, alocados: nat)
    ensures After(n, FirstFit(g, DayCandidates(d, ts) + rest, crianca, appt, quantidade - n)) ==
            After(alocados, FirstFit(grade, rest, crianca, appt, quantidade - alocados))
  {
    ghost var cs := DayCandidates(d, ts) + rest;
    ghost var final := After(n, FirstFit(g, cs, crianca, appt, quantidade - n));
    DayCandidatesShape(d, ts);
    grade, alocados := g, n;
    var j := 0;
    assert cs[0..] == cs;
    while j < |ts|
      invariant 0 <= j <= |ts|
      invariant final == After(alocados, FirstFit(grade, cs[j..], crianca, appt, quantidade - alocados))
    {
      assert cs[j] == DayCandidates(d, ts)[j] == (d, ts[j]);
      var k := Cell(d, ts[j], crianca);
      FirstFitNext(final, grade, alocados, cs, j, k, crianca, appt, quantidade);
      grade, alocados := Visit(grade, k, appt, alocados, quantidade);
      j := j + 1;
    }
    assert cs[j..] == rest;
  }

  /**
   * `alocarAtendimento(tipo, id, crianca, quantidade)`: the days in order,
   * each day's times through `AllocateDay`, with the early-exit check before
   * every day; a shortfall becomes one `falta_horario` conflict.
   */
  method Allocate(g: Grid, cat: Catalog, tipo: string, id: string, crianca: Child, quantidade: int)
    returns (grade: Grid, alocados: nat, falta: Option<Conflict>)
    requires id in cat
    ensures FirstFit(g, Candidates(cat[id].disponibilidade, Dias), crianca,
                     Appointment(tipo, cat[id].nome, cat[id].cor), quantidade) == Placement(grade, alocados)
    ensures falta.Some? <==> alocados < quantidade
    ensures falta.Some? ==> falta.value == FaltaHorario(tipo, cat[id].nome, crianca, quantidade,
                                                        alocados, quantidade - alocados)
  {
    var w := cat[id].disponibilidade;
    var appt := Appointment(tipo, cat[id].nome, cat[id].cor);
    grade, alocados := AllocateDays(g, w, Dias, crianca, appt, quantidade);
    falta := None;
    if alocados < quantidade {
      falta := Some(FaltaHorario(tipo, cat[id].nome, crianca, quantidade, alocados, quantidade - alocados));
    }
  }

  /** The outer loop of `alocarAtendimento`, over the days `ds` in order. */
  method AllocateDays(g: Grid, w: Week, ds: seq<Day>, crianca: Child, appt: Appointment, quantidade: int)
    returns (grade: Grid, alocados: nat)
    ensures FirstFit(g, Candidates(w, ds), crianca, appt, quantidade) == Placement(grade, alocados)
  {
    ghost var final := FirstFit(g, Candidates(w, ds), crianca, appt, quantidade);
    grade, alocados := g, 0;
    var i := 0;
    assert ds[0..] == ds;
    while i < |ds|
      invariant 0 <= i <= |ds|
      invariant final == After(alocados, FirstFit(grade, Candidates(w, ds[i..]), crianca, appt, quantidade - alocados))
    {
      grade, alocados := VisitDay(grade, w, ds, i, crianca, appt, alocados, quantidade);
      i := i + 1;
    }
    assert ds[i..] == [];
  }

  /** The body of the outer loop: day `ds[i]` when sessions are still wanted, else nothing. */
  method VisitDay(g: Grid, w: Week, ds: seq<Day>, i: nat, crianca: Child, appt: Appointment, n: nat, quantidade: int)
    returns (grade: Grid, alocados: nat)
    requires i < |ds|
    ensures After(n, FirstFit(g, Candidates(w, ds[i..]), crianca, appt, quantidade - n)) ==
            After(alocados, FirstFit(grade, Candidates(w, ds[i + 1..]), crianca, appt, quantidade - alocados))
  {
    CandidatesSplit(w, ds, i);
    if n < quantidade {
      grade, alocados := AllocateDay(g, ds[i], w.At(ds[i]), Candidates(w, ds[i + 1..]), crianca, appt, n, quantidade);
    } else {
      grade, alocados := g, n;
      DaySkipped(After(n, FirstFit(g, Candidates(w, ds[i..]), crianca, appt, quantidade - n)), g, n, w, ds, i, crianca, appt, quantidade);
    }
  }

  /** Day i once the quantity is reached: nothing more is placed. */
  lemma DaySkipped(final: Placement, g: Grid, n: nat, w: Week, ds: seq<Day>, i: nat, c: Child, a: Appointment, q: int)
    requires i < |ds| && n >= q
    requires final == After(n, FirstFit(g, Candidates(w, ds[i..]), c, a, q - n))
    ensures final == After(n, FirstFit(g, Candidates(w, ds[i + 1..]), c, a, q - n))
  {
    FirstFitBounds(g, Candidates(w, ds[i..]), c, a, q - n);
    FirstFitBounds(g, Candidates(w, ds[i + 1..]), c, a, q - n);
  }

  lemma CandidatesSplit(w: Week, ds: seq<Day>, i: nat)
    requires i < |ds|
    ensures Candidates(w, ds[i..]) == DayCandidates(ds[i], w.At(ds[i])) + Candidates(w, ds[i + 1..])
  {
    assert ds[i..][0] == ds[i] && ds[i..][1..] == ds[i + 1..];
  }

  /** `n` sessions and the conflicts `cs` already recorded, then the outcome `o`. */
  function AfterAll(n: nat, cs: seq<Conflict>, o: Allocated): Allocated {
    Allocated(o.grade, n + o.alocados, cs + o.conflitos)
  }

  /** The walk over two requirement lists in a row: the second starts from the grid the first leaves. */
  lemma {:induction false} AllocateAllAppend(g: Grid, cat: Catalog, xs: seq<Requirement>, ys: seq<Requirement>)
    ensures AllocateAll(g, cat, xs + ys) ==
      var r := AllocateAll(g, cat, xs);
      AfterAll(r.alocados, r.conflitos, AllocateAll(r.grade, cat, ys))
    decreases |xs|
  {
    if xs == [] {
      assert xs + ys == ys;
    } else {
      assert (xs + ys)[0] == xs[0] && (xs + ys)[1..] == xs[1..] + ys;
      var one := AllocateOne(g, cat, xs[0]);
      AllocateAllAppend(one.grade, cat, xs[1..], ys);
      var r1 := AllocateAll(one.grade, cat, xs[1..]);
      var r2 := AllocateAll(r1.grade, cat, ys);
      assert one.conflitos + (r1.conflitos + r2.conflitos) == (one.conflitos + r1.conflitos) + r2.conflitos;
    }
  }

  /** One step of the walk: requirement j leaves (g', k, one), then the rest follows from there. */
  lemma AllocateAllNext(final: Allocated, g: Grid, n: nat, cs: seq<Conflict>, cat: Catalog, rs: seq<Requirement>, j: nat,
                        g': Grid, k: nat, one: seq<Conflict>)
    requires j < |rs|
    requires final == AfterAll(n, cs, AllocateAll(g, cat, rs[j..]))
    requires Allocated(g', k, one) == AllocateOne(g, cat, rs[j])
    ensures final == AfterAll(n + k, cs + one, AllocateAll(g', cat, rs[j + 1..]))
  {
    assert rs[j..][0] == rs[j] && rs[j..][1..] == rs[j + 1..];
    var rest := AllocateAll(g', cat, rs[j + 1..]);
    assert cs + (one + rest.conflitos) == (cs + one) + rest.conflitos;
  }

  lemma {:induction false} ChildRequirementsShape(c: Child, s: Needs)
    ensures |ChildRequirements(c, s)| == |s|
    ensures forall j :: 0 <= j < |s| ==> ChildRequirements(c, s)[j] == Requirement(c, s[j].0, s[j].1)
  {
    if s != [] {
      ChildRequirementsShape(c, s[1..]);
      assert forall j :: 0 < j < |s| ==> s[1..][j - 1] == s[j];
    }
  }

  function FaltaList(falta: Option<Conflict>): seq<Conflict> {
    if falta.Some? then [falta.value] else []
  }

  /**
   * The body of the inner `forEach` of the walk: a positive quantity whose
   * service maps to a professional present in the catalog is handed to
   * `alocarAtendimento`; anything else is skipped.
   */
  method AllocateRequirement(g: Grid, cat: Catalog, crianca: Child, tipo: string, quantidade: int)
    returns (grade: Grid, alocados: nat, falta: Option<Conflict>)
    ensures Allocated(grade, alocados, FaltaList(falta)) == AllocateOne(g, cat, Requirement(crianca, tipo, quantidade))
  {
    grade, alocados, falta := g, 0, None;
    if quantidade > 0 {
      var id := ProfessionalFor(tipo);
      if id.Some? && id.value in cat {
        grade, alocados, falta := Allocate(g, cat, tipo, id.value, crianca, quantidade);
      }
    }
  }

  /** The inner `Object.entries(necessidadesCrianca).forEach` of the walk, for one child. */
  method AllocateChild(g: Grid, cat: Catalog, crianca: Child, servicos: Needs, n: nat, cs: seq<Conflict>)
    returns (grade: Grid, alocados: nat, conflitos: seq<Conflict>)
    ensures Allocated(grade, alocados, conflitos) == AfterAll(n, cs, AllocateAll(g, cat, ChildRequirements(crianca, servicos)))
  {
    ghost var rs := ChildRequirements(crianca, servicos);
    ghost var final := AfterAll(n, cs, AllocateAll(g, cat, rs));
    ChildRequirementsShape(crianca, servicos);
    grade, alocados, conflitos := g, n, cs;
    var j := 0;
    assert rs[0..] == rs;
    while j < |servicos|
      invariant 0 <= j <= |servicos|
      invariant final == AfterAll(alocados, conflitos, AllocateAll(grade, cat, rs[j..]))
    {
      grade, alocados, conflitos := VisitService(grade, cat, crianca, servicos, j, alocados, conflitos);
      j := j + 1;
    }
    assert rs[j..] == [];
  }

  /** The body of the inner `forEach`: the j-th service of the child, its shortfall pushed if any. */
  method VisitService(g: Grid, cat: Catalog, crianca: Child, servicos: Needs, j: nat, n: nat, cs: seq<Conflict>)
    returns (grade: Grid, alocados: nat, conflitos: seq<Conflict>)
    requires j < |servicos|
    ensures var rs := ChildRequirements(crianca, servicos);
      AfterAll(n, cs, AllocateAll(g, cat, rs[j..])) ==
      AfterAll(alocados, conflitos, AllocateAll(grade, cat, rs[j + 1..]))
  {
    ghost var rs := ChildRequirements(crianca, servicos);
    ChildRequirementsShape(crianca, servicos);
    var (tipo, quantidade) := servicos[j];
    assert rs[j] == Requirement(crianca, tipo, quantidade);
    var k, falta;
    grade, k, falta := AllocateRequirement(g, cat, crianca, tipo, quantidade);
    AllocateAllNext(AfterAll(n, cs, AllocateAll(g, cat, rs[j..])), g, n, cs, cat, rs, j, grade, k, FaltaList(falta));
    alocados := n + k;
    if falta.Some? {
      conflitos := cs + [falta.value];
    } else {
      conflitos := cs;
      assert cs + FaltaList(falta) == cs;
    }
  }

  /**
   * The walk of `otimizarGrade` over `Object.entries(necessidades)`, child by
   * child; `detectados` counts the `falta_horario` conflicts pushed.
   */
  method AllocateDemand(g: Grid, cat: Catalog, demand: Demand) returns (o: Allocated, detectados: nat)
    ensures o == AllocateAll(g, cat, Requirements(demand))
    ensures detectados == |o.conflitos|
  {
    ghost var final := AllocateAll(g, cat, Requirements(demand));
    var grade := g;
    var alocados: nat := 0;
    var conflitos: seq<Conflict> := [];
    var i := 0;
    assert demand[0..] == demand;
    while i < |demand|
      invariant 0 <= i <= |demand|
      invariant final == AfterAll(alocados, conflitos, AllocateAll(grade, cat, Requirements(demand[i..])))
    {
      ChildThenRest(final, grade, alocados, conflitos, cat, demand, i);
      var (crianca, servicos) := demand[i];
      grade, alocados, conflitos := AllocateChild(grade, cat, crianca, servicos, alocados, conflitos);
      i := i + 1;
    }
    assert demand[i..] == [];
    o := Allocated(grade, alocados, conflitos);
    detectados := |conflitos|;
  }

  /** One step of the child loop of `AllocateDemand`, stated on its invariant. */
  lemma ChildThenRest(final: Allocated, g: Grid, n: nat, cs: seq<Conflict>, cat: Catalog, demand: Demand, i: nat)
    requires i < |demand|
    requires final == AfterAll(n, cs, AllocateAll(g, cat, Requirements(demand[i..])))
    ensures var r := AfterAll(n, cs, AllocateAll(g, cat, ChildRequirements(demand[i].0, demand[i].1)));
      final == AfterAll(r.alocados, r.conflitos, AllocateAll(r.grade, cat, Requirements(demand[i + 1..])))
  {
    assert demand[i..][0] == demand[i] && demand[i..][1..] == demand[i + 1..];
    var xs := ChildRequirements(demand[i].0, demand[i].1);
    var ys := Requirements(demand[i + 1..]);
    AllocateAllAppend(g, cat, xs, ys);
    var r1 := AllocateAll(g, cat, xs);
    var r2 := AllocateAll(r1.grade, cat, ys);
    assert cs + (r1.conflitos + r2.conflitos) == (cs + r1.conflitos) + r2.conflitos;
  }
}
