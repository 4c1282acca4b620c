/**
 * The double-booking scan of `otimizarGrade`: for every (day, time) slot,
 * henrique's list and then thiago's list are walked against one set of the
 * professional names seen so far in that slot, and every session whose name
 * was already seen becomes a `conflito_profissional`.
 */
module Detection {
  import opened Domain
  import opened Grids

  /** The `descricao` of a repeat found in henrique's list, or in thiago's. */
  function Descricao(c: Child, p: string): string {
    match c
    case Henrique => p + " tem conflito de horário"
    case Thiago => p + " não pode atender Henrique e Thiago no mesmo horário"
  }

  /** The professional names of a list of sessions. */
  function Names(l: seq<Appointment>): set<string> {
    if l == [] then {} else {l[0].profissional} + Names(l[1..])
  }

  lemma {:induction false} NamesMembership(l: seq<Appointment>, p: string)
    ensures p in Names(l) <==> exists i :: 0 <= i < |l| && l[i].profissional == p
  {
    if l != [] {
      NamesMembership(l[1..], p);
      if p in Names(l[1..]) {
        var i :| 0 <= i < |l[1..]| && l[1..][i].profissional == p;
        assert l[i + 1].profissional == p;
      }
      if exists i :: 0 <= i < |l| && l[i].profissional == p {
        var i :| 0 <= i < |l| && l[i].profissional == p;
        if i > 0 {
          assert l[1..][i - 1] == l[i];
        }
      }
    }
  }

  lemma {:induction false} NamesAppend(a: seq<Appointment>, b: seq<Appointment>)
    ensures Names(a + b) == Names(a) + Names(b)
  {
    if a == [] {
      assert a + b == b;
    } else {
      assert (a + b)[0] == a[0] && (a + b)[1..] == a[1..] + b;
      NamesAppend(a[1..], b);
    }
  }

  /** No name of `l` is in `seen`, and no name occurs twice in `l`. */
  predicate Fresh(l: seq<Appointment>, seen: set<string>) {
    && (forall i :: 0 <= i < |l| ==> l[i].profissional !in seen)
    && (forall i, j :: 0 <= i < j < |l| ==> l[i].profissional != l[j].profissional)
  }

  // ---------------------------------------------------------------------------
  // One child's list

  /** The names seen after a scan, and the conflicts it pushed, in order. */
  datatype Scan = Scan(vistos: set<string>, conflitos: seq<Conflict>)

  /** `slot[c].forEach(...)` for child c of slot (d, t), starting from the names `seen`. */
  function ScanList(d: Day, t: Time, c: Child, l: seq<Appointment>, seen: set<string>): Scan {
    if l == [] then Scan(seen, [])
    else
      var p := l[0].profissional;
      var here := if p in seen then [ConflitoProfissional(d, t, p, Descricao(c, p))] else [];
      var rest := ScanList(d, t, c, l[1..], seen + {p});
      Scan(rest.vistos, here + rest.conflitos)
  }

  /** A scan ends having seen every name of the list. */
  lemma {:induction false} ScanListSeen(d: Day, t: Time, c: Child, l: seq<Appointment>, seen: set<string>)
    ensures ScanList(d, t, c, l, seen).vistos == seen + Names(l)
  {
    if l != [] {
      var p := l[0].profissional;
      ScanListSeen(d, t, c, l[1..], seen + {p});
      assert seen + {p} + Names(l[1..]) == seen + Names(l);
    }
  }

  /**
   * A scan pushes one conflict per session whose name is in `seen` or earlier
   * in the list: the list's length minus its new names.
   */
  lemma {:induction false} ScanListCount(d: Day, t: Time, c: Child, l: seq<Appointment>, seen: set<string>)
    ensures |ScanList(d, t, c, l, seen).conflitos| + |Names(l) - seen| == |l|
  {
    if l != [] {
      var p := l[0].profissional;
      ScanListCount(d, t, c, l[1..], seen + {p});
      if p in seen {
        assert Names(l) - seen == Names(l[1..]) - (seen + {p});
      } else {
        assert Names(l) - seen == {p} + (Names(l[1..]) - (seen + {p}));
        assert p !in Names(l[1..]) - (seen + {p});
      }
    }
  }

  /** Each conflict of a scan names the slot, the child's description and a name of the list. */
  lemma {:induction false} ScanListKinds(d: Day, t: Time, c: Child, l: seq<Appointment>, seen: set<string>)
    ensures forall x :: x in ScanList(d, t, c, l, seen).conflitos ==>
      x == ConflitoProfissional(d, t, x.profissional, Descricao(c, x.profissional)) &&
      x.profissional in Names(l)
  {
    if l != [] {
      ScanListKinds(d, t, c, l[1..], seen + {l[0].profissional});
    }
  }

  lemma FreshStep(l: seq<Appointment>, seen: set<string>)
    requires l != []
    ensures Fresh(l, seen) <==> l[0].profissional !in seen && Fresh(l[1..], seen + {l[0].profissional})
  {
    var p := l[0].profissional;
    if Fresh(l, seen) {
      forall i | 0 <= i < |l[1..]| ensures l[1..][i].profissional !in seen + {p} {
        assert l[1..][i] == l[i + 1];
      }
      forall i, j | 0 <= i < j < |l[1..]| ensures l[1..][i].profissional != l[1..][j].profissional {
        assert l[1..][i] == l[i + 1] && l[1..][j] == l[j + 1];
      }
    }
    if p !in seen && Fresh(l[1..], seen + {p}) {
      forall i | 0 < i < |l| ensures l[i].profissional !in seen + {p} {
        assert l[1..][i - 1] == l[i];
      }
      forall i, j | 0 < i < j < |l| ensures l[i].profissional != l[j].profissional {
        assert l[1..][i - 1] == l[i] && l[1..][j - 1] == l[j];
      }
    }
  }

  /** A scan pushes nothing exactly when the list brings no seen name and no repeat. */
  lemma {:induction false} ScanListClean(d: Day, t: Time, c: Child, l: seq<Appointment>, seen: set<string>)
    ensures ScanList(d, t, c, l, seen).conflitos == [] <==> Fresh(l, seen)
  {
    if l != [] {
      ScanListClean(d, t, c, l[1..], seen + {l[0].profissional});
      FreshStep(l, seen);
    }
  }

  lemma {:induction false} FreshAppend(a: seq<Appointment>, b: seq<Appointment>, seen: set<string>)
    ensures Fresh(a + b, seen) <==> Fresh(a, seen) && Fresh(b, seen + Names(a))
  {
    if a == [] {
      assert a + b == b;
    } else {
      assert (a + b)[0] == a[0] && (a + b)[1..] == a[1..] + b;
      FreshStep(a + b, seen);
      FreshStep(a, seen);
      FreshAppend(a[1..], b, seen + {a[0].profissional});
      assert seen + {a[0].profissional} + Names(a[1..]) == seen + Names(a);
    }
  }

  // ---------------------------------------------------------------------------
  // One slot

  /** Both children's lists of slot (d, t), henrique's first. */
  function SlotList(g: Grid, d: Day, t: Time): seq<Appointment> {
    Get(g, Cell(d, t, Henrique)) + Get(g, Cell(d, t, Thiago))
  }

  /** The conflicts of slot (d, t): henrique's scan, then thiago's with the names it saw. */
  function SlotConflicts(g: Grid, d: Day, t: Time): seq<Conflict> {
    var h := ScanList(d, t, Henrique, Get(g, Cell(d, t, Henrique)), {});
    h.conflitos + ScanList(d, t, Thiago, Get(g, Cell(d, t, Thiago)), h.vistos).conflitos
  }

  lemma UnionSize(a: set<string>, b: set<string>)
    ensures |a + b| == |a| + |b - a|
  {
    assert a + b == a + (b - a);
    assert a * (b - a) == {};
  }

  /** A slot's conflict count is its number of sessions minus its number of distinct professionals. */
  lemma SlotConflictsCount(g: Grid, d: Day, t: Time)
    ensures |SlotConflicts(g, d, t)| + |Names(SlotList(g, d, t))| == SlotCount(g, d, t)
  {
    var hl, tl := Get(g, Cell(d, t, Henrique)), Get(g, Cell(d, t, Thiago));
    ScanListSeen(d, t, Henrique, hl, {});
    ScanListCount(d, t, Henrique, hl, {});
    var h := ScanList(d, t, Henrique, hl, {});
    assert h.vistos == Names(hl) && Names(hl) - {} == Names(hl);
    ScanListCount(d, t, Thiago, tl, h.vistos);
    NamesAppend(hl, tl);
    UnionSize(Names(hl), Names(tl));
  }

  /** Each conflict of a slot is a `conflito_profissional` of that slot naming one of its professionals. */
  lemma SlotConflictsKinds(g: Grid, d: Day, t: Time)
    ensures forall x :: x in SlotConflicts(g, d, t) ==>
      x.ConflitoProfissional? && x.dia == d && x.horario == t && x.profissional in Names(SlotList(g, d, t))
  {
    var hl, tl := Get(g, Cell(d, t, Henrique)), Get(g, Cell(d, t, Thiago));
    ScanListKinds(d, t, Henrique, hl, {});
    var h := ScanList(d, t, Henrique, hl, {});
    ScanListKinds(d, t, Thiago, tl, h.vistos);
    NamesAppend(hl, tl);
  }

  /** A slot has no conflict exactly when all its sessions, of both children, have different professionals. */
  lemma SlotConflictsClean(g: Grid, d: Day, t: Time)
    ensures SlotConflicts(g, d, t) == [] <==> Fresh(SlotList(g, d, t), {})
  {
    var hl, tl := Get(g, Cell(d, t, Henrique)), Get(g, Cell(d, t, Thiago));
    ScanListSeen(d, t, Henrique, hl, {});
    ScanListClean(d, t, Henrique, hl, {});
    var h := ScanList(d, t, Henrique, hl, {});
    ScanListClean(d, t, Thiago, tl, h.vistos);
    FreshAppend(hl, tl, {});
  }

  /**
   * One professional booked once for each child in the same slot is one
   * conflict, reported with thiago's description.
   */
  lemma BookedForBothChildren(g: Grid, d: Day, t: Time, a: Appointment, b: Appointment)
    requires Get(g, Cell(d, t, Henrique)) == [a] && Get(g, Cell(d, t, Thiago)) == [b]
    requires a.profissional == b.profissional
    ensures SlotConflicts(g, d, t) == [ConflitoProfissional(d, t, b.profissional, Descricao(Thiago, b.profissional))]
  {
    var p := a.profissional;
    assert [a][1..] == [] && [b][1..] == [];
    assert {} + {p} == {p};
    assert ScanList(d, t, Henrique, [a][1..], {} + {p}) == Scan({p}, []);
    var h := ScanList(d, t, Henrique, [a], {});
    assert h == Scan({p}, []);
    assert ScanList(d, t, Thiago, [b], {p}).conflitos == [ConflitoProfissional(d, t, p, Descricao(Thiago, p))];
  }

  /** The same professional twice in one child's list is a conflict too, with henrique's description for henrique. */
  lemma TwiceForOneChild(g: Grid, d: Day, t: Time, a: Appointment, b: Appointment)
    requires Get(g, Cell(d, t, Henrique)) == [a, b] && Get(g, Cell(d, t, Thiago)) == []
    requires a.profissional == b.profissional
    ensures SlotConflicts(g, d, t) == [ConflitoProfissional(d, t, b.profissional, Descricao(Henrique, b.profissional))]
  {
    var p := a.profissional;
    assert [a, b][1..] == [b] && [b][1..] == [];
    assert {} + {p} == {p} && {p} + {p} == {p};
    assert ScanList(d, t, Henrique, [b][1..], {p} + {p}) == Scan({p}, []);
    assert ScanList(d, t, Henrique, [b], {p}) == Scan({p}, [ConflitoProfissional(d, t, p, Descricao(Henrique, p))]);
    var h := ScanList(d, t, Henrique, [a, b], {});
    assert h == Scan({p}, [ConflitoProfissional(d, t, p, Descricao(Henrique, p))]);
    assert ScanList(d, t, Thiago, [], {p}).conflitos == [];
  }

  // ---------------------------------------------------------------------------
  // The whole grid

  /** The slots of day d at the times `ts`, in order. */
  function DayConflicts(g: Grid, d: Day, ts: seq<Time>): seq<Conflict> {
    if ts == [] then [] else SlotConflicts(g, d, ts[0]) + DayConflicts(g, d, ts[1..])
  }

  function WeekConflicts(g: Grid, ds: seq<Day>, ts: seq<Time>): seq<Conflict> {
    if ds == [] then [] else DayConflicts(g, ds[0], ts) + WeekConflicts(g, ds[1..], ts)
  }

  /** `dias.forEach(dia => horarios.forEach(horario => ...))` over the scan of each slot. */
  function Detect(g: Grid): seq<Conflict> {
    WeekConflicts(g, Dias, Horarios)
  }

  /** The number of distinct professionals of each slot, summed over day d. */
  function DayDistinct(g: Grid, d: Day, ts: seq<Time>): nat {
    if ts == [] then 0 else |Names(SlotList(g, d, ts[0]))| + DayDistinct(g, d, ts[1..])
  }

  function WeekDistinct(g: Grid, ds: seq<Day>): nat {
    if ds == [] then 0 else DayDistinct(g, ds[0], Horarios) + WeekDistinct(g, ds[1..])
  }

  lemma {:induction false} DayConflictsSpec(g: Grid, d: Day, ts: seq<Time>)
    ensures |DayConflicts(g, d, ts)| + DayDistinct(g, d, ts) == DayCount(g, d, ts)
    ensures forall x :: x in DayConflicts(g, d, ts) ==> x.ConflitoProfissional? && x.dia == d && x.horario in ts
    ensures DayConflicts(g, d, ts) == [] <==> forall t :: t in ts ==> SlotConflicts(g, d, t) == []
  {
    if ts != [] {
      SlotConflictsCount(g, d, ts[0]);
      SlotConflictsKinds(g, d, ts[0]);
      DayConflictsSpec(g, d, ts[1..]);
      assert forall t :: t in ts <==> t == ts[0] || t in ts[1..];
    }
  }

  lemma {:induction false} WeekConflictsSpec(g: Grid, ds: seq<Day>)
    ensures |WeekConflicts(g, ds, Horarios)| + WeekDistinct(g, ds) == DaysCount(g, ds)
    ensures forall x :: x in WeekConflicts(g, ds, Horarios) ==> x.ConflitoProfissional? && x.dia in ds
    ensures WeekConflicts(g, ds, Horarios) == [] <==>
      forall d, t :: d in ds && t in Horarios ==> SlotConflicts(g, d, t) == []
  {
    if ds != [] {
      DayConflictsSpec(g, ds[0], Horarios);
      WeekConflictsSpec(g, ds[1..]);
      assert forall d :: d in ds <==> d == ds[0] || d in ds[1..];
    }
  }

  /**
   * The grid's conflict count is its number of sessions minus, slot by slot,
   * its number of distinct professionals; every detected conflict is a
   * `conflito_profissional`.
   */
  lemma DetectCount(g: Grid)
    ensures |Detect(g)| + WeekDistinct(g, Dias) == CellCount(g)
    ensures forall x :: x in Detect(g) ==> x.ConflitoProfissional?
  {
    WeekConflictsSpec(g, Dias);
  }

  /** No conflict is detected exactly when no slot has a professional twice, for one child or across both. */
  lemma DetectClean(g: Grid)
    ensures Detect(g) == [] <==> forall d, t :: Fresh(SlotList(g, d, t), {})
  {
    WeekConflictsSpec(g, Dias);
    DiasListsEveryDay();
    HorariosListsEveryTime();
    forall d, t ensures SlotConflicts(g, d, t) == [] <==> Fresh(SlotList(g, d, t), {}) {
      SlotConflictsClean(g, d, t);
    }
  }

  /** The freshly initialised grid has no double booking. */
  lemma DetectEmpty()
    ensures Detect(EmptyGrid()) == []
  {
    EmptyGridCount();
    DetectCount(EmptyGrid());
  }

  // ---------------------------------------------------------------------------
  // The loops

  /**
   * The `forEach` over child c's list `l` of slot (d, t): pushes onto `cs`
   * and bumps the counter `n` once per repeat, and adds each name to `seen`.
   */
  method ScanCell(d: Day, t: Time, c: Child, l: seq<Appointment>, seen: set<string>, cs: seq<Conflict>, n: nat)
    returns (vistos: set<string>, conflitos: seq<Conflict>, detectados: nat)
    ensures vistos == ScanList(d, t, c, l, seen).vistos
    ensures conflitos == cs + ScanList(d, t, c, l, seen).conflitos
    ensures detectados == n + |ScanList(d, t, c, l, seen).conflitos|
  {
    ghost var final := ScanList(d, t, c, l, seen);
    vistos, conflitos, detectados := seen, cs, n;
    var j := 0;
    assert l[0..] == l;
    while j < |l|
      invariant 0 <= j <= |l|
      invariant final.vistos == ScanList(d, t, c, l[j..], vistos).vistos
      invariant cs + final.conflitos == conflitos + ScanList(d, t, c, l[j..], vistos).conflitos
      invariant detectados + |cs| == n + |conflitos|
    {
      var p := l[j].profissional;
      ScanNext(final, cs, conflitos, d, t, c, l, j, vistos);
      if p in vistos {
        conflitos := conflitos + [ConflitoProfissional(d, t, p, Descricao(c, p))];
        detectados := detectados + 1;
      }
      vistos := vistos + {p};
      j := j + 1;
    }
    assert l[j..] == [];
  }

  /** One step of the scan, stated on the loop's invariant: session j is a repeat exactly when its name was seen. */
  lemma ScanNext(final: Scan, cs: seq<Conflict>, conflitos: seq<Conflict>, d: Day, t: Time, c: Child,
                 l: seq<Appointment>, j: nat, seen: set<string>)
    requires j < |l|
    requires final.vistos == ScanList(d, t, c, l[j..], seen).vistos
    requires cs + final.conflitos == conflitos + ScanList(d, t, c, l[j..], seen).conflitos
    ensures var p := l[j].profissional;
      var rest := ScanList(d, t, c, l[j + 1..], seen + {p});
      && final.vistos == rest.vistos
      && (p in seen ==> cs + final.conflitos == (conflitos + [ConflitoProfissional(d, t, p, Descricao(c, p))]) + rest.conflitos)
      && (p !in seen ==> cs + final.conflitos == conflitos + rest.conflitos)
  {
    assert l[j..][0] == l[j] && l[j..][1..] == l[j + 1..];
    var p := l[j].profissional;
    var rest := ScanList(d, t, c, l[j + 1..], seen + {p});
    if p in seen {
      assert conflitos + ([ConflitoProfissional(d, t, p, Descricao(c, p))] + rest.conflitos) ==
             (conflitos + [ConflitoProfissional(d, t, p, Descricao(c, p))]) + rest.conflitos;
    } else {
      assert [] + rest.conflitos == rest.conflitos;
    }
  }

  /** One slot: a fresh set of names, henrique's list, then thiago's. */
  method DetectSlot(g: Grid, d: Day, t: Time, cs: seq<Conflict>, n: nat)
    returns (conflitos: seq<Conflict>, detectados: nat)
    ensures conflitos == cs + SlotConflicts(g, d, t)
    ensures detectados == n + |SlotConflicts(g, d, t)|
  {
    var vistos: set<string> := {};
    vistos, conflitos, detectados := ScanCell(d, t, Henrique, Get(g, Cell(d, t, Henrique)), vistos, cs, n);
    ghost var mid := conflitos;
    vistos, conflitos, detectados := ScanCell(d, t, Thiago, Get(g, Cell(d, t, Thiago)), vistos, conflitos, detectados);
    assert conflitos == cs + SlotConflicts(g, d, t);
  }

  /** `horarios.forEach` for day d, over the times `ts`. */
  method DetectDay(g: Grid, d: Day, ts: seq<Time>, cs: seq<Conflict>, n: nat)
    returns (conflitos: seq<Conflict>, detectados: nat)
    ensures conflitos == cs + DayConflicts(g, d, ts)
    ensures detectados == n + |DayConflicts(g, d, ts)|
  {
    conflitos, detectados := cs, n;
    var j := 0;
    assert ts[0..] == ts;
    while j < |ts|
      invariant 0 <= j <= |ts|
      invariant cs + DayConflicts(g, d, ts) == conflitos + DayConflicts(g, d, ts[j..])
      invariant detectados + |cs| == n + |conflitos|
    {
      DayStep(g, d, ts, j, conflitos);
      conflitos, detectados := DetectSlot(g, d, ts[j], conflitos, detectados);
      j := j + 1;
    }
    assert ts[j..] == [];
  }

  lemma DayStep(g: Grid, d: Day, ts: seq<Time>, j: nat, cs: seq<Conflict>)
    requires j < |ts|
    ensures cs + DayConflicts(g, d, ts[j..]) == (cs + SlotConflicts(g, d, ts[j])) + DayConflicts(g, d, ts[j + 1..])
  {
    assert ts[j..][0] == ts[j] && ts[j..][1..] == ts[j + 1..];
  }

  lemma WeekStep(g: Grid, ds: seq<Day>, ts: seq<Time>, i: nat, cs: seq<Conflict>)
    requires i < |ds|
    ensures cs + WeekConflicts(g, ds[i..], ts) == (cs + DayConflicts(g, ds[i], ts)) + WeekConflicts(g, ds[i + 1..], ts)
  {
    assert ds[i..][0] == ds[i] && ds[i..][1..] == ds[i + 1..];
  }

  /** `dias.forEach` over the days `ds`, each day at the times `ts`. */
  method DetectWeek(g: Grid, ds: seq<Day>, ts: seq<Time>, cs: seq<Conflict>, n: nat)
    returns (conflitos: seq<Conflict>, detectados: nat)
    ensures conflitos == cs + WeekConflicts(g, ds, ts)
    ensures detectados == n + |WeekConflicts(g, ds, ts)|
  {
    conflitos, detectados := cs, n;
    var i := 0;
    assert ds[0..] == ds;
    while i < |ds|
      invariant 0 <= i <= |ds|
      invariant cs + WeekConflicts(g, ds, ts) == conflitos + WeekConflicts(g, ds[i..], ts)
      invariant detectados + |cs| == n + |conflitos|
    {
      WeekStep(g, ds, ts, i, conflitos);
      conflitos, detectados := DetectDay(g, ds[i], ts, conflitos, detectados);
      i := i + 1;
    }
    assert ds[i..] == [];
  }

  /** The scan of `otimizarGrade`, appending to the conflicts `cs` and the counter `n` it is given. */
  method DetectDoubleBookings(g: Grid, cs: seq<Conflict>, n: nat) returns (conflitos: seq<Conflict>, detectados: nat)
    ensures conflitos == cs + Detect(g)
    ensures detectados == n + |Detect(g)|
  {
    conflitos, detectados := DetectWeek(g, Dias, Horarios, cs, n);
  }
}
