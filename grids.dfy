/**
 * The weekly grid `grade[dia][horario][crianca]`: a nested object of days,
 * times and children whose leaves are lists of sessions. A grid built by the
 * engine or by "Limpar" has every cell; a grid handed to the editor may lack
 * a day, a time or a child, and the editor creates what is missing.
 */
module Grids {
  import opened Domain

  /** The address of one list: `grade[dia][horario][crianca]`. */
  datatype Cell = Cell(dia: Day, horario: Time, crianca: Child)

  /**
   * The nested object, flattened: `slots` holds the (day, time) pairs whose
   * object `grade[dia][horario]` exists, and `cells` the child lists inside
   * them. A slot may exist without a list for some child (`{}`); a present day
   * with no object at a given time behaves exactly like a missing day, so days
   * need no set of their own.
   */
  datatype Grid = Grid(slots: set<(Day, Time)>, cells: map<Cell, seq<Appointment>>)

  /** Maximum number of sessions per child and slot. */
  const Capacity := 2

  // ---------------------------------------------------------------------------
  // Reading and writing cells

  predicate HasSlot(g: Grid, d: Day, t: Time) {
    (d, t) in g.slots
  }

  /** The cell's list exists (all three levels of the nested object are present). */
  predicate Has(g: Grid, k: Cell) {
    HasSlot(g, k.dia, k.horario) && k in g.cells
  }

  /** The cell's list, or the empty list when it is missing (`grade[d]?.[t]?.[c] || []`). */
  function Get(g: Grid, k: Cell): seq<Appointment> {
    if Has(g, k) then g.cells[k] else []
  }

  /** A missing slot created as `{ henrique: [], thiago: [] }` (after creating a missing day as `{}`). */
  function AddSlot(g: Grid, d: Day, t: Time): Grid {
    Grid(g.slots + {(d, t)}, g.cells[Cell(d, t, Henrique) := []][Cell(d, t, Thiago) := []])
  }

  lemma AddSlotSpec(g: Grid, d: Day, t: Time)
    requires !HasSlot(g, d, t)
    ensures forall k :: Get(AddSlot(g, d, t), k) == Get(g, k)
    ensures forall k :: Has(AddSlot(g, d, t), k) <==> Has(g, k) || (k.dia == d && k.horario == t)
  {
    var r := AddSlot(g, d, t);
    forall k ensures Get(r, k) == Get(g, k) && (Has(r, k) <==> Has(g, k) || (k.dia == d && k.horario == t)) {
      if k.dia == d && k.horario == t {
        CriancasListsEveryChild();
        if k.crianca == Henrique {
          assert k == Cell(d, t, Henrique);
        } else {
          assert k == Cell(d, t, Thiago);
        }
      } else {
        assert (k.dia, k.horario) != (d, t);
      }
    }
  }

  /** The grid with the slot (d, t) created if it was missing. */
  function WithSlot(g: Grid, d: Day, t: Time): (r: Grid)
    ensures HasSlot(r, d, t)
    ensures HasSlot(g, d, t) ==> r == g
  {
    if HasSlot(g, d, t) then g else AddSlot(g, d, t)
  }

  /** Creating a slot adds only empty lists, for both children, and changes no list. */
  lemma WithSlotSpec(g: Grid, d: Day, t: Time)
    ensures var r := WithSlot(g, d, t);
      && (!HasSlot(g, d, t) ==>
            Has(r, Cell(d, t, Henrique)) && Get(r, Cell(d, t, Henrique)) == [] &&
            Has(r, Cell(d, t, Thiago)) && Get(r, Cell(d, t, Thiago)) == [])
      && (forall k :: Get(r, k) == Get(g, k))
      && (forall k :: Has(r, k) <==> Has(g, k) || (k.dia == d && k.horario == t && !HasSlot(g, d, t)))
      && (forall d', t' :: HasSlot(r, d', t') <==> HasSlot(g, d', t') || (d' == d && t' == t))
  {
    if !HasSlot(g, d, t) {
      AddSlotSpec(g, d, t);
    }
  }

  /**
   * The grid with cell k holding `l`, after creating its slot if missing and
   * the child's list if missing.
   */
  function Set(g: Grid, k: Cell, l: seq<Appointment>): (r: Grid)
    ensures Has(r, k) && Get(r, k) == l
  {
    var s := WithSlot(g, k.dia, k.horario);
    Grid(s.slots, s.cells[k := l])
  }

  /** Writing one cell changes no other list, creates only that cell's slot, and only the lists of that slot. */
  lemma SetSpec(g: Grid, k: Cell, l: seq<Appointment>)
    ensures var r := Set(g, k, l);
      && (forall k' :: k' != k ==> Get(r, k') == Get(g, k'))
      && (forall k' :: Has(r, k') <==>
            (Has(g, k') || k' == k ||
             (k'.dia == k.dia && k'.horario == k.horario && !HasSlot(g, k.dia, k.horario))))
      && (forall d, t :: HasSlot(r, d, t) <==> HasSlot(g, d, t) || (d == k.dia && t == k.horario))
  {
    WithSlotSpec(g, k.dia, k.horario);
  }

  /**
   * `grade[d][t][c].push(...)` as the engine does it: the list is replaced
   * in place and nothing is created. The engine's grid is complete, so the
   * list always exists there.
   */
  function Put(g: Grid, k: Cell, l: seq<Appointment>): Grid {
    Grid(g.slots, g.cells[k := l])
  }

  /** The engine's write changes the one list, and that list only where its slot exists. */
  lemma PutSpec(g: Grid, k: Cell, l: seq<Appointment>)
    ensures Get(Put(g, k, l), k) == if HasSlot(g, k.dia, k.horario) then l else []
    ensures forall k' :: k' != k ==> Get(Put(g, k, l), k') == Get(g, k')
    ensures forall k' :: Has(Put(g, k, l), k') <==> Has(g, k') || (k' == k && HasSlot(g, k.dia, k.horario))
  {
  }

  /** Where the slot exists, the engine's write and the editor's write agree. */
  lemma PutIsSet(g: Grid, k: Cell, l: seq<Appointment>)
    requires HasSlot(g, k.dia, k.horario)
    ensures Put(g, k, l) == Set(g, k, l)
  {
  }

  /** A complete grid has every slot. */
  lemma CompleteSlots(g: Grid)
    requires Complete(g)
    ensures forall d, t :: HasSlot(g, d, t)
  {
    forall d, t ensures HasSlot(g, d, t) {
      assert Has(g, Cell(d, t, Henrique));
    }
  }

  // ---------------------------------------------------------------------------
  // Whole-grid properties

  /** Every (day, time, child) list exists. */
  ghost predicate Complete(g: Grid) {
    forall k :: Has(g, k)
  }

  /** No list holds more than two sessions. */
  ghost predicate WithinCapacity(g: Grid) {
    forall k :: |Get(g, k)| <= Capacity
  }

  /** The cells of the given days and times, for both children. */
  function CellsOf(ds: seq<Day>, ts: seq<Time>): set<Cell> {
    set d, t, c | d in ds && t in ts && c in Criancas :: Cell(d, t, c)
  }

  function SlotsOf(ds: seq<Day>, ts: seq<Time>): set<(Day, Time)> {
    set d, t | d in ds && t in ts :: (d, t)
  }

  /** The grid built by `dias.forEach(... horarios.forEach(...))`: every slot, every list empty. */
  function EmptyGrid(): (g: Grid)
    ensures Complete(g)
    ensures forall k :: Get(g, k) == []
  {
    DiasListsEveryDay();
    HorariosListsEveryTime();
    CriancasListsEveryChild();
    Grid(SlotsOf(Dias, Horarios), map k | k in CellsOf(Dias, Horarios) :: [])
  }

  /**
   * Builds the all-empty grid with the two nested loops of
   * `otimizarGrade` and `limparGrade`.
   */
  method BuildEmpty() returns (g: Grid)
    ensures g == EmptyGrid()
    ensures Complete(g) && WithinCapacity(g)
  {
    HorariosListsEveryTime();
    CriancasListsEveryChild();
    g := Grid({}, map[]);
    var i := 0;
    while i < |Dias|
      invariant 0 <= i <= |Dias|
      invariant forall d, t :: (d, t) in g.slots <==> d in Dias[..i]
      invariant forall k :: k in g.cells <==> k.dia in Dias[..i]
      invariant forall k :: k in g.cells ==> g.cells[k] == []
    {
      var j := 0;
      while j < |Horarios|
        invariant 0 <= j <= |Horarios|
        invariant forall d, t :: (d, t) in g.slots <==> d in Dias[..i] || (d == Dias[i] && t in Horarios[..j])
        invariant forall k :: k in g.cells <==> k.dia in Dias[..i] || (k.dia == Dias[i] && k.horario in Horarios[..j])
        invariant forall k :: k in g.cells ==> g.cells[k] == []
      {
        var d, t := Dias[i], Horarios[j];
        g := Grid(g.slots + {(d, t)}, g.cells[Cell(d, t, Henrique) := []][Cell(d, t, Thiago) := []]);
        assert Horarios[..j + 1] == Horarios[..j] + [t];
        forall k ensures k in g.cells <==> k.dia in Dias[..i] || (k.dia == Dias[i] && k.horario in Horarios[..j + 1]) {
          assert k.crianca == Criancas[0] || k.crianca == Criancas[1];
        }
        j := j + 1;
      }
      assert Horarios[..j] == Horarios;
      assert Dias[..i + 1] == Dias[..i] + [Dias[i]];
      i := i + 1;
    }
    assert Dias[..i] == Dias;
    EmptyGridShape();
    DiasListsEveryDay();
    forall p: (Day, Time) ensures p in g.slots <==> p in EmptyGrid().slots {
      assert p == (p.0, p.1);
      assert p.0 in Dias[..i];
    }
    assert g.slots == EmptyGrid().slots;
    assert g.cells == EmptyGrid().cells;
  }

  /** The all-empty grid has every slot and every list. */
  lemma EmptyGridShape()
    ensures forall d, t :: (d, t) in EmptyGrid().slots
    ensures forall k :: k in EmptyGrid().cells && EmptyGrid().cells[k] == []
  {
    DiasListsEveryDay();
    HorariosListsEveryTime();
    CriancasListsEveryChild();
    forall k ensures k in CellsOf(Dias, Horarios) {
      assert k == Cell(k.dia, k.horario, k.crianca);
    }
  }

  // ---------------------------------------------------------------------------
  // Counting sessions

  function SlotCount(g: Grid, d: Day, t: Time): nat {
    |Get(g, Cell(d, t, Henrique))| + |Get(g, Cell(d, t, Thiago))|
  }

  function DayCount(g: Grid, d: Day, ts: seq<Time>): nat {
    if ts == [] then 0 else SlotCount(g, d, ts[0]) + DayCount(g, d, ts[1..])
  }

  function DaysCount(g: Grid, ds: seq<Day>): nat {
    if ds == [] then 0 else DayCount(g, ds[0], Horarios) + DaysCount(g, ds[1..])
  }

  /** The number of sessions in the whole grid. */
  function CellCount(g: Grid): nat {
    DaysCount(g, Dias)
  }

  lemma SlotCountSet(g: Grid, k: Cell, l: seq<Appointment>, t: Time)
    ensures SlotCount(Set(g, k, l), k.dia, t) ==
            SlotCount(g, k.dia, t) + (if t == k.horario then |l| - |Get(g, k)| else 0)
  {
    CriancasListsEveryChild();
    if t == k.horario {
      if k.crianca == Henrique {
        assert Cell(k.dia, t, Henrique) == k;
      } else {
        assert Cell(k.dia, t, Thiago) == k;
      }
    }
  }

  lemma {:induction false} DayCountSet(g: Grid, k: Cell, l: seq<Appointment>, ts: seq<Time>)
    requires NoDuplicates(ts)
    ensures DayCount(Set(g, k, l), k.dia, ts) ==
            DayCount(g, k.dia, ts) + (if k.horario in ts then |l| - |Get(g, k)| else 0)
  {
    if ts != [] {
      assert NoDuplicates(ts[1..]) by {
        forall i, j | 0 <= i < j < |ts[1..]| ensures ts[1..][i] != ts[1..][j] {
          assert ts[1..][i] == ts[i + 1] && ts[1..][j] == ts[j + 1];
        }
      }
      DayCountSet(g, k, l, ts[1..]);
      SlotCountSet(g, k, l, ts[0]);
      if ts[0] == k.horario {
        assert k.horario !in ts[1..] by {
          forall i | 0 <= i < |ts[1..]| ensures ts[1..][i] != k.horario {
            assert ts[1..][i] == ts[i + 1];
          }
        }
      }
      assert k.horario in ts <==> ts[0] == k.horario || k.horario in ts[1..];
    }
  }

  lemma {:induction false} DayCountOther(g: Grid, k: Cell, l: seq<Appointment>, d: Day, ts: seq<Time>)
    requires d != k.dia
    ensures DayCount(Set(g, k, l), d, ts) == DayCount(g, d, ts)
  {
    if ts != [] {
      DayCountOther(g, k, l, d, ts[1..]);
    }
  }

  lemma {:induction false} DaysCountSet(g: Grid, k: Cell, l: seq<Appointment>, ds: seq<Day>)
    requires NoDuplicates(ds)
    ensures DaysCount(Set(g, k, l), ds) ==
            DaysCount(g, ds) + (if k.dia in ds then |l| - |Get(g, k)| else 0)
  {
    if ds != [] {
      assert NoDuplicates(ds[1..]) by {
        forall i, j | 0 <= i < j < |ds[1..]| ensures ds[1..][i] != ds[1..][j] {
          assert ds[1..][i] == ds[i + 1] && ds[1..][j] == ds[j + 1];
        }
      }
      DaysCountSet(g, k, l, ds[1..]);
      HorariosListsEveryTime();
      if ds[0] == k.dia {
        DayCountSet(g, k, l, Horarios);
        assert k.dia !in ds[1..] by {
          forall i | 0 <= i < |ds[1..]| ensures ds[1..][i] != k.dia {
            assert ds[1..][i] == ds[i + 1];
          }
        }
      } else {
        DayCountOther(g, k, l, ds[0], Horarios);
      }
      assert k.dia in ds <==> ds[0] == k.dia || k.dia in ds[1..];
    }
  }

  /** Writing a list into one cell changes the grid's session count by the change in that list's length. */
  lemma CellCountSet(g: Grid, k: Cell, l: seq<Appointment>)
    ensures CellCount(Set(g, k, l)) == CellCount(g) - |Get(g, k)| + |l|
  {
    DiasListsEveryDay();
    DaysCountSet(g, k, l, Dias);
  }

  lemma CellCountPut(g: Grid, k: Cell, l: seq<Appointment>)
    requires HasSlot(g, k.dia, k.horario)
    ensures CellCount(Put(g, k, l)) == CellCount(g) - |Get(g, k)| + |l|
  {
    PutIsSet(g, k, l);
    CellCountSet(g, k, l);
  }

  /** Creating a slot adds only empty lists, so the session count stays. */
  lemma WithSlotCount(g: Grid, d: Day, t: Time)
    ensures CellCount(WithSlot(g, d, t)) == CellCount(g)
  {
    WithSlotSpec(g, d, t);
    DaysCountSameGets(WithSlot(g, d, t), g, Dias);
  }

  lemma {:induction false} DayCountZero(g: Grid, d: Day, ts: seq<Time>)
    requires forall k :: Get(g, k) == []
    ensures DayCount(g, d, ts) == 0
  {
    if ts != [] {
      DayCountZero(g, d, ts[1..]);
    }
  }

  lemma {:induction false} DaysCountZero(g: Grid, ds: seq<Day>)
    requires forall k :: Get(g, k) == []
    ensures DaysCount(g, ds) == 0
  {
    if ds != [] {
      DayCountZero(g, ds[0], Horarios);
      DaysCountZero(g, ds[1..]);
    }
  }

  /** The freshly initialised grid holds no session. */
  lemma EmptyGridCount()
    ensures CellCount(EmptyGrid()) == 0
  {
    DaysCountZero(EmptyGrid(), Dias);
  }

  /** `WithSlot` creates only empty lists, so it adds no sessions. */
  lemma {:induction false} DayCountSameGets(g: Grid, h: Grid, d: Day, ts: seq<Time>)
    requires forall k :: Get(g, k) == Get(h, k)
    ensures DayCount(g, d, ts) == DayCount(h, d, ts)
  {
    if ts != [] {
      DayCountSameGets(g, h, d, ts[1..]);
    }
  }

  lemma {:induction false} DaysCountSameGets(g: Grid, h: Grid, ds: seq<Day>)
    requires forall k :: Get(g, k) == Get(h, k)
    ensures DaysCount(g, ds) == DaysCount(h, ds)
  {
    if ds != [] {
      DayCountSameGets(g, h, ds[0], Horarios);
      DaysCountSameGets(g, h, ds[1..]);
    }
  }
}
