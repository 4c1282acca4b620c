/**
 * The editable grid: "Limpar", "Salvar", "Cancelar", adding and removing a
 * session in the slot being edited, and moving a session by drag and drop.
 *
 * The handlers copy only the top level of the grid (`{ ...grade }`) and then
 * write into the day, slot and list objects in place. Those objects are
 * shared with the grid the component last set and, while the grid came from
 * the prop `gradeInicial`, with the prop itself. The grids here are values;
 * the sharing is modelled by the set of days whose objects the editor's grid
 * and the prop have in common (`Shared`).
 */
module Editor {
  import opened Wrappers
  import opened Domain
  import opened Grids

  // ---------------------------------------------------------------------------
  // `Array.prototype.splice(index, 1)`

  /** Where `splice` starts: a negative index counts from the end, clamped to 0; a large one is clamped to the length. */
  function SpliceStart(n: nat, index: int): (s: nat)
    ensures s <= n
  {
    if index < 0 then (if n + index < 0 then 0 else n + index)
    else if index < n then index else n
  }

  /** The list with `splice(index, 1)` applied. */
  function Splice<T>(l: seq<T>, index: int): (r: seq<T>)
    ensures var s := SpliceStart(|l|, index);
      |r| == if s < |l| then |l| - 1 else |l|
  {
    var s := SpliceStart(|l|, index);
    if s < |l| then l[..s] + l[s + 1..] else l
  }

  /**
   * An index inside the list removes exactly that entry and keeps the others
   * in order; an index at or past the end removes nothing.
   */
  lemma SpliceInRange<T>(l: seq<T>, i: int)
    ensures 0 <= i < |l| ==>
      && |Splice(l, i)| == |l| - 1
      && (forall j :: 0 <= j < i ==> Splice(l, i)[j] == l[j])
      && (forall j :: i <= j < |l| - 1 ==> Splice(l, i)[j] == l[j + 1])
      && multiset(Splice(l, i)) + multiset{l[i]} == multiset(l)
    ensures i >= |l| ==> Splice(l, i) == l
  {
    if 0 <= i < |l| {
      assert l == l[..i] + [l[i]] + l[i + 1..];
    }
  }

  /** A negative index counts from the end; one below `-|l|` removes the first entry. */
  lemma SpliceNegative<T>(l: seq<T>, i: int)
    requires i < 0 && l != []
    ensures -|l| <= i ==> Splice(l, i) == l[..|l| + i] + l[|l| + i + 1..]
    ensures i < -|l| ==> Splice(l, i) == l[1..]
  {
  }

  // ---------------------------------------------------------------------------
  // Adding and removing in the slot being edited

  /**
   * `salvarAtendimento`: nothing without a slot being edited; a full list
   * (two sessions) refuses the session; otherwise the slot and the list are
   * created when missing and the session is appended.
   */
  function Added(g: Grid, slot: Option<Cell>, a: Appointment): Grid {
    if slot.None? || |Get(g, slot.value)| >= Capacity then g
    else Set(g, slot.value, Get(g, slot.value) + [a])
  }

  /** The added session lands last in the edited cell, and only that cell changes. */
  lemma AddedSpec(g: Grid, k: Cell, a: Appointment)
    ensures var r := Added(g, Some(k), a);
      && (|Get(g, k)| < Capacity <==> Get(r, k) == Get(g, k) + [a])
      && (|Get(g, k)| >= Capacity ==> r == g)
      && (forall k' :: k' != k ==> Get(r, k') == Get(g, k'))
      && (|Get(g, k)| < Capacity ==> Has(r, k) && CellCount(r) == CellCount(g) + 1)
  {
    if |Get(g, k)| < Capacity {
      SetSpec(g, k, Get(g, k) + [a]);
      CellCountSet(g, k, Get(g, k) + [a]);
    } else {
      assert |Get(g, k) + [a]| != |Get(g, k)|;
    }
  }

  /** A missing slot is created as `{ henrique: [], thiago: [] }`, so the other child gets an empty list. */
  lemma AddedCreatesSlot(g: Grid, k: Cell, other: Cell, a: Appointment)
    requires !HasSlot(g, k.dia, k.horario)
    requires other.dia == k.dia && other.horario == k.horario && other != k
    ensures var r := Added(g, Some(k), a);
      Get(r, k) == [a] && Has(r, other) && Get(r, other) == []
  {
    SetSpec(g, k, [a]);
    WithSlotSpec(g, k.dia, k.horario);
  }

  /** Adding never takes a cell past two sessions. */
  lemma AddedWithinCapacity(g: Grid, slot: Option<Cell>, a: Appointment)
    requires WithinCapacity(g)
    ensures WithinCapacity(Added(g, slot, a))
  {
    if slot.Some? {
      AddedSpec(g, slot.value, a);
    }
  }

  /** `removerAtendimento`: nothing without a slot being edited or when its list is missing; otherwise `splice(index, 1)`. */
  function Removed(g: Grid, slot: Option<Cell>, index: int): Grid {
    if slot.None? || !Has(g, slot.value) then g
    else Put(g, slot.value, Splice(Get(g, slot.value), index))
  }

  /**
   * Removing an index inside the list takes away exactly that session and
   * nothing else; an index at or past the end leaves the grid as it was.
   */
  lemma RemovedSpec(g: Grid, k: Cell, index: int)
    ensures var r := Removed(g, Some(k), index);
      && Get(r, k) == Splice(Get(g, k), index)
      && (forall k' :: k' != k ==> Get(r, k') == Get(g, k'))
      && (forall k' :: Has(r, k') <==> Has(g, k'))
      && (index >= |Get(g, k)| ==> r == g)
      && (0 <= index < |Get(g, k)| ==> CellCount(r) == CellCount(g) - 1)
  {
    if Has(g, k) {
      PutSpec(g, k, Splice(Get(g, k), index));
      CellCountPut(g, k, Splice(Get(g, k), index));
      if index >= |Get(g, k)| {
        assert g.cells[k := g.cells[k]] == g.cells;
      }
    }
  }

  /** Removing never takes a cell past two sessions. */
  lemma RemovedWithinCapacity(g: Grid, slot: Option<Cell>, index: int)
    requires WithinCapacity(g)
    ensures WithinCapacity(Removed(g, slot, index))
  {
    if slot.Some? {
      RemovedSpec(g, slot.value, index);
    }
  }

  // ---------------------------------------------------------------------------
  // Drag and drop

  /**
   * How a drop ends: the session moved; the destination was full (an alert,
   * no `setGrade`); or the destination slot existed without the child's list,
   * so reading its length throws and the handler's `catch` ends the drop.
   */
  datatype DropStatus = Moved | Rejected | Failed

  datatype DropResult = DropResult(grade: Grid, status: DropStatus)

  /**
   * `handleDrop`, as the code orders it: the session is first spliced out of
   * its source list, in the arrays the current grid shares; then the
   * destination slot is created if missing; then the capacity check may give
   * up. Because the removal has already happened in the shared arrays, the
   * grid `grade` refers to afterwards has lost the session when the drop is
   * refused.
   */
  function Dropped(g: Grid, origem: Cell, index: int, a: Appointment, destino: Cell): DropResult {
    var g1 := if Has(g, origem) then Put(g, origem, Splice(Get(g, origem), index)) else g;
    var g2 := WithSlot(g1, destino.dia, destino.horario);
    if !Has(g2, destino) then DropResult(g2, Failed)
    else if |Get(g2, destino)| >= Capacity then DropResult(g2, Rejected)
    else DropResult(Put(g2, destino, Get(g2, destino) + [a]), Moved)
  }

  /** The grid after the source removal alone. */
  function Lifted(g: Grid, origem: Cell, index: int): Grid {
    Removed(g, Some(origem), index)
  }

  /** A drop between two different cells that has room moves the session and changes no other cell. */
  lemma DropMoves(g: Grid, origem: Cell, index: int, a: Appointment, destino: Cell)
    requires origem != destino
    requires Has(g, destino) || !HasSlot(g, destino.dia, destino.horario)
    requires |Get(g, destino)| < Capacity
    ensures var r := Dropped(g, origem, index, a, destino);
      && r.status == Moved
      && Get(r.grade, destino) == Get(g, destino) + [a]
      && Get(r.grade, origem) == (if Has(g, origem) then Splice(Get(g, origem), index) else [])
      && (forall k :: k != origem && k != destino ==> Get(r.grade, k) == Get(g, k))
  {
    var g1 := Lifted(g, origem, index);
    RemovedSpec(g, origem, index);
    var g2 := WithSlot(g1, destino.dia, destino.horario);
    WithSlotSpec(g1, destino.dia, destino.horario);
    PutSpec(g2, destino, Get(g2, destino) + [a]);
  }

  /** A drop that moves a session out of a list where it was keeps the number of sessions in the grid. */
  lemma DropMovedConserves(g: Grid, origem: Cell, index: int, a: Appointment, destino: Cell)
    requires Has(g, origem) && 0 <= index < |Get(g, origem)|
    ensures var r := Dropped(g, origem, index, a, destino);
      r.status == Moved ==> CellCount(r.grade) == CellCount(g)
  {
    var g1 := Lifted(g, origem, index);
    RemovedSpec(g, origem, index);
    var g2 := WithSlot(g1, destino.dia, destino.horario);
    WithSlotCount(g1, destino.dia, destino.horario);
    if Has(g2, destino) {
      CellCountPut(g2, destino, Get(g2, destino) + [a]);
    }
  }

  /**
   * The non-atomic order: a move onto a full cell is refused, yet the session
   * has already been spliced out of its source list, so the grid holds one
   * session fewer and the moved one is nowhere.
   */
  lemma DropOntoFullCellLosesSession(g: Grid, origem: Cell, index: int, a: Appointment, destino: Cell)
    requires Has(g, origem) && 0 <= index < |Get(g, origem)|
    requires origem != destino && |Get(g, destino)| >= Capacity
    ensures var r := Dropped(g, origem, index, a, destino);
      && r.status == Rejected
      && r.grade == Lifted(g, origem, index)
      && Get(r.grade, origem) == Splice(Get(g, origem), index)
      && Get(r.grade, destino) == Get(g, destino)
      && CellCount(r.grade) == CellCount(g) - 1
  {
    var g1 := Lifted(g, origem, index);
    RemovedSpec(g, origem, index);
    assert Has(g1, destino);
  }

  /** Moving within one cell is accepted even when the cell is full: the session ends up last. */
  lemma DropWithinCell(g: Grid, k: Cell, index: int, a: Appointment)
    requires Has(g, k) && 0 <= index < |Get(g, k)| <= Capacity
    ensures var r := Dropped(g, k, index, a, k);
      && r.status == Moved
      && Get(r.grade, k) == Splice(Get(g, k), index) + [a]
      && (forall k' :: k' != k ==> Get(r.grade, k') == Get(g, k'))
  {
    var g1 := Lifted(g, k, index);
    RemovedSpec(g, k, index);
    PutSpec(g1, k, Get(g1, k) + [a]);
  }

  /** A drop into a slot that exists without the child's list throws: only the source removal remains. */
  lemma DropIntoMissingList(g: Grid, origem: Cell, index: int, a: Appointment, destino: Cell)
    requires HasSlot(g, destino.dia, destino.horario) && !Has(g, destino)
    ensures var r := Dropped(g, origem, index, a, destino);
      r.status == Failed && r.grade == Lifted(g, origem, index)
  {
    RemovedSpec(g, origem, index);
  }

  /** A drop into a missing slot creates it with both children's lists and puts the session there. */
  lemma DropIntoMissingSlot(g: Grid, origem: Cell, index: int, a: Appointment, destino: Cell, other: Cell)
    requires !HasSlot(g, destino.dia, destino.horario)
    requires other.dia == destino.dia && other.horario == destino.horario && other != destino
    ensures var r := Dropped(g, origem, index, a, destino);
      && r.status == Moved
      && Get(r.grade, destino) == [a]
      && Has(r.grade, destino) && Has(r.grade, other) && Get(r.grade, other) == []
  {
    var g1 := Lifted(g, origem, index);
    RemovedSpec(g, origem, index);
    var g2 := WithSlot(g1, destino.dia, destino.horario);
    WithSlotSpec(g1, destino.dia, destino.horario);
    PutSpec(g2, destino, [a]);
  }

  /** Whatever the outcome, no cell ends up with more than two sessions. */
  lemma DropWithinCapacity(g: Grid, origem: Cell, index: int, a: Appointment, destino: Cell)
    requires WithinCapacity(g)
    ensures WithinCapacity(Dropped(g, origem, index, a, destino).grade)
  {
    var g1 := Lifted(g, origem, index);
    RemovedWithinCapacity(g, Some(origem), index);
    var g2 := WithSlot(g1, destino.dia, destino.horario);
    WithSlotSpec(g1, destino.dia, destino.horario);
    if Has(g2, destino) && |Get(g2, destino)| < Capacity {
      PutSpec(g2, destino, Get(g2, destino) + [a]);
    }
  }

  // ---------------------------------------------------------------------------
  // Objects shared with the prop

  /** The days whose object exists in g, that is, that hold at least one slot. */
  function DaysOf(g: Grid): set<Day> {
    set s | s in g.slots :: s.0
  }

  /**
   * What the prop holds once the editor's grid has become `g`, when the day
   * objects of the days in `shared` are common to the two: those days read
   * as in `g`, every other day as in `p`.
   */
  function Shared(p: Grid, g: Grid, shared: set<Day>): Grid {
    Grid((set s | s in p.slots && s.0 !in shared) + (set s | s in g.slots && s.0 in shared),
         map k | k in p.cells.Keys + g.cells.Keys && (if k.dia in shared then k in g.cells else k in p.cells)
               :: if k.dia in shared then g.cells[k] else p.cells[k])
  }

  /** `Shared`, when there may be no prop at all. */
  function SharedWith(p: Option<Grid>, g: Grid, shared: set<Day>): Option<Grid> {
    if p.Some? then Some(Shared(p.value, g, shared)) else None
  }

  /** The days the editor's grid shares with a prop it has just taken as its grid. */
  function SharedDays(p: Option<Grid>): set<Day> {
    if p.Some? then DaysOf(p.value) else {}
  }

  /** On the days in `shared`, the two grids have the same slots and the same lists. */
  ghost predicate Agree(g: Grid, p: Grid, shared: set<Day>) {
    && (forall k: Cell :: k.dia in shared ==> Has(g, k) == Has(p, k) && Get(g, k) == Get(p, k))
    && (forall d, t :: d in shared ==> HasSlot(g, d, t) == HasSlot(p, d, t))
  }

  /** A write into a shared day reaches the prop; every other day of the prop stays as it was. */
  lemma SharedSpec(p: Grid, g: Grid, shared: set<Day>)
    ensures var r := Shared(p, g, shared);
      && (forall k: Cell :: k.dia in shared ==> Has(r, k) == Has(g, k) && Get(r, k) == Get(g, k))
      && (forall k: Cell :: k.dia !in shared ==> Has(r, k) == Has(p, k) && Get(r, k) == Get(p, k))
      && (forall d, t :: HasSlot(r, d, t) == if d in shared then HasSlot(g, d, t) else HasSlot(p, d, t))
  {
  }

  /** Only writes add slots, so the days of a grid never disappear. */
  lemma KeepsDays(g: Grid, r: Grid)
    requires g.slots <= r.slots
    ensures DaysOf(g) <= DaysOf(r)
  {
  }

  /**
   * A session added while the editor's grid is the prop's own object, on a
   * day the prop has, lands in the prop as well: going back to the prop
   * afterwards keeps it.
   */
  lemma AddReachesProp(p: Grid, k: Cell, a: Appointment)
    requires k.dia in DaysOf(p) && |Get(p, k)| < Capacity
    ensures Get(Shared(p, Added(p, Some(k), a), DaysOf(p)), k) == Get(p, k) + [a]
  {
    SharedSpec(p, Added(p, Some(k), a), DaysOf(p));
    AddedSpec(p, k, a);
  }

  /** Likewise a session removed from a day the prop has is gone from the prop. */
  lemma RemoveReachesProp(p: Grid, k: Cell, index: int)
    requires k.dia in DaysOf(p)
    ensures Get(Shared(p, Removed(p, Some(k), index), DaysOf(p)), k) == Splice(Get(p, k), index)
  {
    SharedSpec(p, Removed(p, Some(k), index), DaysOf(p));
    RemovedSpec(p, k, index);
  }

  /** A day the prop lacks is created in the editor's copy only: the prop does not change. */
  lemma AddToNewDayStaysLocal(p: Grid, k: Cell, a: Appointment)
    requires k.dia !in DaysOf(p)
    ensures var r := Shared(p, Added(p, Some(k), a), DaysOf(p));
      forall k' :: Has(r, k') == Has(p, k') && Get(r, k') == Get(p, k')
  {
    SharedSpec(p, Added(p, Some(k), a), DaysOf(p));
    AddedSpec(p, k, a);
    forall k': Cell | Has(p, k') ensures k'.dia in DaysOf(p) {
      assert (k'.dia, k'.horario) in p.slots;
    }
  }

  /** After a write that adds no day, the prop read through the shared days agrees with the new grid on them. */
  lemma SharedKeepsAgreement(p: Grid, g: Grid, r: Grid, shared: set<Day>)
    requires shared <= DaysOf(g) && g.slots <= r.slots
    ensures shared <= DaysOf(r) && Agree(r, Shared(p, r, shared), shared)
  {
    KeepsDays(g, r);
    SharedSpec(p, r, shared);
  }

  // ---------------------------------------------------------------------------
  // The component's state

  /** `gradeInicial || {}`: the grid handed in, or the empty object. */
  function Initial(inicial: Option<Grid>): Grid {
    if inicial.Some? then inicial.value else Grid({}, map[])
  }

  /**
   * The `grade`, `modoEdicao` and `slotEditando` state of `GradeEditavel`,
   * with what its prop `gradeInicial` holds and the days whose objects the
   * two have in common.
   */
  class EditableGrid {
    var grade: Grid
    var modoEdicao: bool
    var slotEditando: Option<Cell>
    /** The current contents of the prop `gradeInicial`; None when it is absent. */
    var inicial: Option<Grid>
    /** The days whose objects `grade` shares with the prop. */
    var compartilhados: set<Day>

    /** The shared days are days of the grid, and on them the grid and the prop read alike. */
    ghost predicate Valid()
      reads this
    {
      && compartilhados <= DaysOf(grade)
      && (inicial.None? ==> compartilhados == {})
      && (inicial.Some? ==> Agree(grade, inicial.value, compartilhados))
    }

    /** With no grid stored in the browser, the state starts as the prop object itself. */
    constructor (prop: Option<Grid>)
      ensures grade == Initial(prop) && !modoEdicao && slotEditando == None
      ensures inicial == prop && compartilhados == SharedDays(prop)
      ensures Valid()
    {
      grade := Initial(prop);
      modoEdicao := false;
      slotEditando := None;
      inicial := prop;
      compartilhados := SharedDays(prop);
    }

    /** "Editar". */
    method StartEditing()
      requires Valid()
      modifies this
      ensures modoEdicao && grade == old(grade) && slotEditando == old(slotEditando)
      ensures inicial == old(inicial) && compartilhados == old(compartilhados)
      ensures Valid()
    {
      modoEdicao := true;
    }

    /** `limparGrade`: a fresh grid, every day, time and child with an empty list, sharing nothing. */
    method Clear()
      requires Valid()
      modifies this
      ensures grade == EmptyGrid() && Complete(grade) && WithinCapacity(grade)
      ensures compartilhados == {} && inicial == old(inicial)
      ensures modoEdicao == old(modoEdicao) && slotEditando == old(slotEditando)
      ensures Valid()
    {
      grade := BuildEmpty();
      compartilhados := {};
    }

    /**
     * The parent receives the grid (`onGradeChange`, which the application
     * wires to its own grid state) and hands that very object back as the
     * prop: the prop now is the grid, every day shared.
     */
    method Publish()
      requires Valid()
      modifies this
      ensures inicial == Some(grade) && compartilhados == DaysOf(grade)
      ensures grade == old(grade) && modoEdicao == old(modoEdicao) && slotEditando == old(slotEditando)
      ensures Valid()
    {
      inicial := Some(grade);
      compartilhados := DaysOf(grade);
    }

    /** A new prop object, such as a freshly optimised grid: it shares nothing with the editor's grid. */
    method ReceiveProp(prop: Option<Grid>)
      requires Valid()
      modifies this
      ensures inicial == prop && compartilhados == {}
      ensures grade == old(grade) && modoEdicao == old(modoEdicao) && slotEditando == old(slotEditando)
      ensures Valid()
    {
      inicial := prop;
      compartilhados := {};
    }

    /** `salvarGrade`: the grid is handed to the parent, which hands it back; editing ends. */
    method Save()
      requires Valid()
      modifies this
      ensures grade == old(grade) && !modoEdicao && slotEditando == None
      ensures inicial == Some(grade) && compartilhados == DaysOf(grade)
      ensures Valid()
    {
      Publish();
      modoEdicao := false;
      slotEditando := None;
    }

    /**
     * `cancelarEdicao`: the grid becomes the prop object as it is now,
     * including every write made in place on the days it shared, and
     * editing ends.
     */
    method Cancel()
      requires Valid()
      modifies this
      ensures grade == Initial(old(inicial)) && !modoEdicao && slotEditando == None
      ensures inicial == old(inicial) && compartilhados == SharedDays(inicial)
      ensures Valid()
    {
      grade := Initial(inicial);
      modoEdicao := false;
      slotEditando := None;
      compartilhados := SharedDays(inicial);
    }

    /** `editarSlot`: opens a cell for editing, only in edit mode. */
    method EditSlot(k: Cell)
      requires Valid()
      modifies this
      ensures slotEditando == if old(modoEdicao) then Some(k) else old(slotEditando)
      ensures grade == old(grade) && modoEdicao == old(modoEdicao)
      ensures inicial == old(inicial) && compartilhados == old(compartilhados)
      ensures Valid()
    {
      if modoEdicao {
        slotEditando := Some(k);
      }
    }

    /** The editor's "close" button. */
    method CloseSlot()
      requires Valid()
      modifies this
      ensures slotEditando == None && grade == old(grade) && modoEdicao == old(modoEdicao)
      ensures inicial == old(inicial) && compartilhados == old(compartilhados)
      ensures Valid()
    {
      slotEditando := None;
    }

    /** `salvarAtendimento`: the grid becomes `Added`; on the shared days the prop changes with it. */
    method AddAppointment(a: Appointment)
      requires Valid()
      modifies this
      ensures grade == Added(old(grade), old(slotEditando), a)
      ensures inicial == SharedWith(old(inicial), grade, compartilhados)
      ensures compartilhados == old(compartilhados)
      ensures modoEdicao == old(modoEdicao) && slotEditando == old(slotEditando)
      ensures Valid()
    {
      ghost var before := grade;
      if slotEditando.Some? {
        var k := slotEditando.value;
        if |Get(grade, k)| < Capacity {
          grade := Set(grade, k, Get(grade, k) + [a]);
        }
      }
      if inicial.Some? {
        SharedKeepsAgreement(inicial.value, before, grade, compartilhados);
      }
      inicial := SharedWith(inicial, grade, compartilhados);
    }

    /** `removerAtendimento`: the grid becomes `Removed`; on the shared days the prop changes with it. */
    method RemoveAppointment(index: int)
      requires Valid()
      modifies this
      ensures grade == Removed(old(grade), old(slotEditando), index)
      ensures inicial == SharedWith(old(inicial), grade, compartilhados)
      ensures compartilhados == old(compartilhados)
      ensures modoEdicao == old(modoEdicao) && slotEditando == old(slotEditando)
      ensures Valid()
    {
      ghost var before := grade;
      if slotEditando.Some? {
        var k := slotEditando.value;
        if Has(grade, k) {
          grade := Put(grade, k, Splice(Get(grade, k), index));
        }
      }
      if inicial.Some? {
        SharedKeepsAgreement(inicial.value, before, grade, compartilhados);
      }
      inicial := SharedWith(inicial, grade, compartilhados);
    }

    /**
     * `handleDrop` for a session dragged from `origem` at `index` onto
     * `destino`: the grid and the outcome are `Dropped`, and on the shared
     * days the prop changes with the grid, the refused and failed drops
     * included.
     */
    method DropAppointment(origem: Cell, index: int, a: Appointment, destino: Cell) returns (status: DropStatus)
      requires Valid()
      modifies this
      ensures DropResult(grade, status) == Dropped(old(grade), origem, index, a, destino)
      ensures inicial == SharedWith(old(inicial), grade, compartilhados)
      ensures compartilhados == old(compartilhados)
      ensures modoEdicao == old(modoEdicao) && slotEditando == old(slotEditando)
      ensures Valid()
    {
      ghost var before := grade;
      if Has(grade, origem) {
        grade := Put(grade, origem, Splice(Get(grade, origem), index));
      }
      grade := WithSlot(grade, destino.dia, destino.horario);
      if !Has(grade, destino) {
        status := Failed;
      } else if |Get(grade, destino)| >= Capacity {
        status := Rejected;
      } else {
        grade := Put(grade, destino, Get(grade, destino) + [a]);
        status := Moved;
      }
      if inicial.Some? {
        SharedKeepsAgreement(inicial.value, before, grade, compartilhados);
      }
      inicial := SharedWith(inicial, grade, compartilhados);
    }
  }
}
