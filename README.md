# Sistema terapêutico — scheduling core in Dafny

This project models the scheduling logic of a React application that plans
the weekly therapy sessions of two children, henrique and thiago, across a
roster of professionals.

The week is a grid of 5 days × 4 times × 2 children. Each cell holds a list
of at most two sessions.

Three parts of the application are modelled:

- **The optimiser** `otimizarGrade` (`src/App.jsx`). It builds an empty
  grid and sums the required sessions. It then walks the demand table child
  by child and service by service. Each service is mapped to its
  professional, and the required number of sessions is placed first-fit over
  that professional's availability, at most two per cell.
  - A service that falls short produces a `falta_horario` conflict.
  - A scan of every slot then produces a `conflito_profissional` conflict
    each time a professional's name appears again in that slot.
  - Last, it rounds the efficiency percentage.
- **The editable grid** `GradeEditavel` (`src/components/GradeEditavel.jsx`).
  It covers "Limpar", "Salvar" and "Cancelar", adding and removing a session
  in the cell being edited, and moving a session by drag and drop.
- **The configuration screen** `ConfiguracoesSistema`
  (`src/components/ConfiguracoesSistema.jsx`). It renames, recolours, removes
  and adds professionals, edits demand quantities and shows the summary
  total.

Modules:

- `Domain` (domain.dfy): days, times, children, professionals, sessions,
  conflicts.
- `Grids` (grids.dfy): the grid and the session count `CellCount`.
- `OrderedMaps` (ordered_maps.dfy): JavaScript objects with their key order.
- `Demands` (demands.dfy): the demand table and its flattening into
  requirements.
- `Allocation` (allocation.dfy): first-fit placement and the allocation walk.
- `Detection` (detection.dfy): the double-booking scan.
- `Optimizer` (optimizer.dfy): the whole `otimizarGrade` and its
  statistics.
- `Reference` (reference.dfy): the built-in catalog and demand table.
- `Editor` (editor.dfy): the editable grid, with class `EditableGrid` over
  its state.
- `Settings` (settings.dfy): the configuration edits.
- `Wrappers` (wrappers.dfy): `Option`.

How the model is built:

- The optimiser's loops are methods. Each is proved equal to a recursive
  specification: `FirstFit`, `AllocateAll` or `Detect`. The properties are
  lemmas about those functions.
- The editor's state is a class whose methods follow the handlers. Each
  method is tied to a function (`Added`, `Removed`, `Dropped`), and lemmas
  state what those functions do. The class also holds the prop's contents and
  the days whose objects its grid shares with the prop. Each write is then
  reflected into the prop on those days (`Shared`).
- The configuration edits are pure functions on a state record.

### The drop is not atomic

The model reproduces the code as written. `handleDrop` first splices the
session out of its source list, then creates the destination slot if
missing, and only then checks the destination's capacity.

`{ ...grade }` is a shallow copy, so the removal is applied to lists that
the current grid shares. When the destination is full, the handler returns
without pushing, and the grid has lost the session.
`Editor.DropOntoFullCellLosesSession` proves this for every such input.

### Behaviour worth knowing

- A move onto a full cell loses the session, as described above (`Editor.DropOntoFullCellLosesSession`).
- When no session is required, the efficiency is `0 / 0` or `n / 0`, so it is `NaN` or `Infinity` (`Optimizer.EfficiencyOf`).
- `splice(index, 1)` ignores an index at or past the end of the list. A negative index counts from the end, and one below `-length` removes the first entry (`Editor.SpliceInRange`, `Editor.SpliceNegative`).
- "Cancelar" (`cancelarEdicao`) returns to the prop `gradeInicial`, not to a stored grid.
  - The handlers write into the nested day, slot and list objects in place, and those objects are the prop's while the grid came from it. So a session added or removed on a day the prop has is already in the prop (`Editor.AddReachesProp`, `Editor.RemoveReachesProp`).
  - The application passes `setGradeOtimizada` as `onGradeChange` and the same state back as `gradeInicial` (`src/App.jsx:439`). Once the editor hands its grid up ("Salvar", or the change effect), the prop is the current grid, and cancelling restores nothing (`Editor.EditableGrid.Publish`, `Editor.EditableGrid.Cancel`).

## Model

| member | source | states |
|---|---|---|
| Domain.DiasListsEveryDay | src/App.jsx:139 | the day list holds each of the five weekdays exactly once |
| Domain.HorariosListsEveryTime | src/App.jsx:140 | the time list holds each of the four session times exactly once |
| Domain.CriancasListsEveryChild | src/App.jsx:154 | both children appear, once each |
| Grids.WithSlot | src/components/GradeEditavel.jsx:143-148 | afterwards the slot exists, and an existing slot leaves the grid as it was |
| Grids.WithSlotSpec | src/components/GradeEditavel.jsx:143-148 | a missing slot is created as `{ henrique: [], thiago: [] }`; no list changes and no other slot appears |
| Grids.Set | src/components/GradeEditavel.jsx:288-291 | after the write, the cell's list exists and is the list written |
| Grids.SetSpec | src/components/GradeEditavel.jsx:288-301 | writing one cell changes no other list and creates only that cell's slot |
| Grids.PutSpec | src/App.jsx:177-178 | an in-place push changes only that cell's list and creates nothing |
| Grids.PutIsSet | src/App.jsx:177-178 | once the slot exists, the in-place write and the creating write agree |
| Grids.EmptyGrid | src/App.jsx:151-156 | the fresh grid has every cell, each with an empty list |
| Grids.BuildEmpty | src/App.jsx:151-156 | the nested loops build exactly that grid, complete and within capacity |
| Grids.EmptyGridShape | src/App.jsx:151-156 | every (day, time) slot and every cell is present, and every cell is `[]` |
| Grids.CellCountSet | src/components/GradeEditavel.jsx:299-300 | writing a cell changes the grid's session count by exactly the change in that list's length |
| Grids.CellCountPut | src/App.jsx:177-184 | the same holds for the engine's in-place push |
| Grids.WithSlotCount | src/components/GradeEditavel.jsx:146-148 | creating a slot does not change the session count |
| Grids.EmptyGridCount | src/App.jsx:151-156 | the fresh grid holds no session |
| Demands.ChildRequirements | src/App.jsx:205 | one requirement per `Object.entries` entry of a child's row |
| Demands.ChildRequirementsSum | src/App.jsx:160-162 | a child's requirements carry exactly the row's total |
| Demands.RequirementsSum | src/App.jsx:159-163 | the walk's requirement list carries exactly the table's total, the `atendimentosNecessarios` sum |
| OrderedMaps.Update | src/components/ConfiguracoesSistema.jsx:100-106 | the spread update: the key reads back the new value, other keys keep theirs, and the key keeps its position or is appended |
| OrderedMaps.UpdateKeepsUnique | src/components/ConfiguracoesSistema.jsx:100-106 | the spread update never repeats a key |
| Allocation.FirstFitBounds | src/App.jsx:171-183 | a requirement gets at most its quantity and at most one session per candidate time; a quantity ≤ 0 changes nothing |
| Allocation.FirstFitCount | src/App.jsx:177-184 | the grid gains exactly `alocados` sessions |
| Allocation.FirstFitCapacity | src/App.jsx:177 | no cell goes past two sessions, and a complete grid stays complete |
| Allocation.FirstFitCells | src/App.jsx:173-185 | every cell is either unchanged or the child's cell at a candidate time, with the session appended once |
| Allocation.FirstFitFrame | src/App.jsx:170-187 | cells outside the professional's availability are unchanged |
| Allocation.FirstFitExact | src/App.jsx:170-187 | over distinct candidates, `alocados` is the smaller of the quantity and the number of candidate cells with room |
| Allocation.FirstFree | src/App.jsx:173-177 | the first candidate whose cell has room, with every earlier one full, or none when all are full |
| Allocation.FirstFitSingle | src/App.jsx:170-187 | a single session goes to the first candidate with room, and nowhere when none has room |
| Allocation.DayCandidatesShape | src/App.jsx:173 | a day's candidates are its listed times, in order |
| Allocation.CandidatesDays | src/App.jsx:170-173 | every candidate is a listed time of one of the days |
| Allocation.CandidatesNoDuplicates | src/App.jsx:170-173 | with distinct days and distinct times per day, no candidate repeats |
| Allocation.CandidatesStartMonday | src/App.jsx:170-173 | the walk starts with Monday's first listed time |
| Allocation.CandidatesOfEmptyWeek | src/App.jsx:170-173 | an empty availability yields no candidate |
| Allocation.AllocateOneConflicts | src/App.jsx:189-219 | a conflict appears exactly when an allocated requirement falls short, carrying quantity, allocated and shortfall > 0; a quantity ≤ 0 or an unmapped or absent professional changes nothing |
| Allocation.AllocateOneGrid | src/App.jsx:177-184 | on a complete grid the session count rises by `alocados`; capacity and completeness are kept |
| Allocation.UnmetWhenNoAvailability | src/App.jsx:189-198 | a professional with no listed time places nothing, and the whole quantity is reported missing |
| Allocation.AllocateAllSpec | src/App.jsx:204-222 | the walk keeps capacity and completeness and counts exactly the sessions it adds; it allocates at most the positive demand; every conflict is an unmet-demand entry with shortfall > 0, at most one per requirement |
| Allocation.PositiveSumBound | src/App.jsx:206 | with no negative quantity, the positive demand is the whole demand |
| Allocation.AllocateAllAppend | src/App.jsx:204-205 | the walk over two lists in a row continues from the grid the first leaves |
| Allocation.Visit | src/App.jsx:174-185 | one time visited: the session goes in exactly when sessions are still wanted and the cell has room |
| Allocation.AllocateDay | src/App.jsx:173-186 | the inner loop over one day's times does what `FirstFit` does over that day's candidates |
| Allocation.VisitDay | src/App.jsx:171-186 | one day visited, or skipped once the quantity is reached, as `FirstFit` does |
| Allocation.AllocateDays | src/App.jsx:170-187 | the outer loop returns exactly `FirstFit` over the whole availability |
| Allocation.Allocate | src/App.jsx:166-201 | `alocarAtendimento` returns the first-fit result; a conflict exists exactly when `alocados < quantidade`, with its fields |
| Allocation.AllocateRequirement | src/App.jsx:206-219 | one entry of the walk does exactly what `AllocateOne` specifies |
| Allocation.VisitService | src/App.jsx:205-220 | one service of a child advances the walk by one requirement |
| Allocation.AllocateChild | src/App.jsx:205-221 | the loop over a child's services does what `AllocateAll` does over that child's requirements |
| Allocation.AllocateDemand | src/App.jsx:204-222 | the walk over the table returns `AllocateAll` of its requirements, and its counter equals the number of conflicts |
| Detection.ScanListSeen | src/App.jsx:230-245 | the scan ends having seen every name of the list |
| Detection.ScanListCount | src/App.jsx:233-245 | conflicts plus new names equal the number of sessions scanned |
| Detection.ScanListKinds | src/App.jsx:235-241 | each entry is a `conflito_profissional` of this day and time, with the child's description, for a name in the list |
| Detection.ScanListClean | src/App.jsx:233-245 | no conflict exactly when no name repeats and none was seen before |
| Detection.SlotConflictsCount | src/App.jsx:227-260 | a slot's conflicts are its sessions minus its distinct professionals |
| Detection.SlotConflictsKinds | src/App.jsx:235-256 | a slot's conflicts carry that slot and a professional booked there |
| Detection.SlotConflictsClean | src/App.jsx:227-260 | a slot has no conflict exactly when its two lists together name each professional once |
| Detection.BookedForBothChildren | src/App.jsx:248-257 | one professional booked for both children gives one conflict, with thiago's description |
| Detection.TwiceForOneChild | src/App.jsx:233-242 | one professional twice for henrique gives one conflict, with henrique's description |
| Detection.DayConflictsSpec | src/App.jsx:226-261 | one day: conflicts plus distinct professionals per slot equal sessions; all entries are of that day; none exactly when no slot has one |
| Detection.WeekConflictsSpec | src/App.jsx:225-262 | the same, for a list of days |
| Detection.DetectCount | src/App.jsx:225-262 | the scan reports sessions minus, slot by slot, distinct professionals, all `conflito_profissional` |
| Detection.DetectClean | src/App.jsx:225-262 | the scan reports nothing exactly when no slot names a professional twice |
| Detection.DetectEmpty | src/App.jsx:225-262 | the empty grid has no double booking |
| Detection.ScanCell | src/App.jsx:233-245 | the loop over one list adds exactly the scan's conflicts and counts them |
| Detection.DetectSlot | src/App.jsx:227-260 | one slot's loops add exactly that slot's conflicts and count them |
| Detection.DetectDay | src/App.jsx:226-261 | the loop over one day's times adds exactly the day's conflicts |
| Detection.DetectWeek | src/App.jsx:225-262 | the loop over the days adds exactly the week's conflicts |
| Detection.DetectDoubleBookings | src/App.jsx:224-262 | the detection pass appends `Detect(grade)` to the list and counts it |
| Optimizer.EfficiencyOf | src/App.jsx:264 | `Math.round(100a/r)`: the rounded-half-up percentage, `NaN` for 0/0 and `Infinity` for n/0 |
| Optimizer.EfficiencyBounds | src/App.jsx:264 | with at most the required sessions placed, the percentage lies in 0..100; it is 100 when all are placed and 0 when none are |
| Optimizer.SumNeeds | src/App.jsx:160-162 | the inner loop adds a child's quantities |
| Optimizer.SumRequired | src/App.jsx:159-163 | the two loops compute the table's total |
| Optimizer.Optimize | src/App.jsx:138-269 | `otimizarGrade` returns the grid, conflicts and statistics of the specification `OptimizeSpec` |
| Optimizer.OptimizeGrid | src/App.jsx:177-184 | the optimised grid is complete and within capacity, and `atendimentosAlocados` is the number of sessions in it |
| Optimizer.OptimizeConflicts | src/App.jsx:189-257 | `conflitosDetectados` equals the length of `conflitos`; unmet-demand entries come first, all with shortfall > 0, then only double bookings, as many as sessions minus distinct professionals per slot |
| Optimizer.RequiredCountsEveryRequirement | src/App.jsx:159-163 | `atendimentosNecessarios` counts every quantity, including skipped requirements |
| Optimizer.EfficiencyAtMost100 | src/App.jsx:264 | with no negative quantity and a positive total, the efficiency is a percentage in 0..100 |
| Reference.ReferenceTotal | src/App.jsx:75-90 | the built-in table asks for 16 sessions per child, 32 in all |
| Reference.ReferenceNeedsMapped | src/App.jsx:208-217 | every built-in service has a positive quantity and a professional in the built-in catalog |
| Reference.ReferenceAllActive | src/App.jsx:204-219 | all ten built-in requirements are allocated, none skipped |
| Editor.Splice | src/components/GradeEditavel.jsx:310 | `splice(index, 1)` shortens the list by one exactly when its start is inside the list |
| Editor.SpliceInRange | src/components/GradeEditavel.jsx:310 | an index inside the list removes exactly that entry (multiset and order), and one at or past the end removes nothing |
| Editor.SpliceNegative | src/components/GradeEditavel.jsx:310 | a negative index removes the entry counted from the end, or the first entry when below `-length` |
| Editor.AddedSpec | src/components/GradeEditavel.jsx:282-302 | a full cell is left as it was; otherwise the session is appended last; no other cell changes, and the count rises by one |
| Editor.AddedCreatesSlot | src/components/GradeEditavel.jsx:288-291 | adding to a missing slot creates it, with the other child's list empty |
| Editor.AddedWithinCapacity | src/components/GradeEditavel.jsx:294-297 | adding never takes a cell past two sessions |
| Editor.RemovedSpec | src/components/GradeEditavel.jsx:304-314 | the cell becomes its `splice(index, 1)`, no other cell changes and nothing is created; an index at or past the end changes nothing; one inside removes one session |
| Editor.RemovedWithinCapacity | src/components/GradeEditavel.jsx:304-314 | removing keeps every cell within capacity |
| Editor.DropMoves | src/components/GradeEditavel.jsx:135-158 | a move between two cells with room appends the session at the destination and splices the source; no other cell changes |
| Editor.DropMovedConserves | src/components/GradeEditavel.jsx:138-158 | a completed move keeps the grid's session count |
| Editor.DropOntoFullCellLosesSession | src/components/GradeEditavel.jsx:135-154 | a move onto a full cell is refused after the source splice: the destination is unchanged and the grid has one session fewer |
| Editor.DropWithinCell | src/components/GradeEditavel.jsx:138-156 | a move inside one cell is accepted even when the cell is full, and the session ends last |
| Editor.DropIntoMissingList | src/components/GradeEditavel.jsx:151-163 | a slot without the child's list makes the length read throw; only the source splice remains |
| Editor.DropIntoMissingSlot | src/components/GradeEditavel.jsx:143-157 | a missing destination slot is created with both children's lists, and the session lands there |
| Editor.DropWithinCapacity | src/components/GradeEditavel.jsx:150-157 | whatever the outcome, no cell ends with more than two sessions |
| Editor.SharedSpec | src/components/GradeEditavel.jsx:129-158 | on the shared days the prop reads as the editor's new grid, with the same slots and lists; on every other day it keeps its own |
| Editor.SharedKeepsAgreement | src/components/GradeEditavel.jsx:284-311 | after a write that removes no slot, the shared days are still days of the grid, and grid and prop agree on them |
| Editor.AddReachesProp | src/components/GradeEditavel.jsx:286-300 | a session added on a day the prop has, while the grid is the prop object, is in the prop too |
| Editor.RemoveReachesProp | src/components/GradeEditavel.jsx:306-311 | a session spliced out on a day the prop has is gone from the prop too |
| Editor.AddToNewDayStaysLocal | src/components/GradeEditavel.jsx:286-289 | a day the prop lacks is created in the editor's top-level copy only, and the prop reads exactly as before |
| Editor.EditableGrid.constructor | src/components/GradeEditavel.jsx:29-33 | the grid starts as the prop object itself (`gradeInicial \|\| {}`), sharing all its days; not editing, no cell open; the invariant holds |
| Editor.EditableGrid.StartEditing | src/components/GradeEditavel.jsx:406 | "Editar" turns edit mode on and changes nothing else |
| Editor.EditableGrid.Publish | src/components/GradeEditavel.jsx:38-44 | the change effect hands the grid to the parent (`onGradeChange`, wired to the application's grid state at `src/App.jsx:439`): the prop becomes the grid itself, every day shared |
| Editor.EditableGrid.ReceiveProp | src/App.jsx:266 | a freshly optimised grid arrives as a new prop object: the prop changes, the editor's grid does not, and nothing is shared |
| Editor.EditableGrid.Clear | src/components/GradeEditavel.jsx:65-77 | "Limpar" makes a fresh grid with an empty list for every day × time × child, sharing nothing with the prop |
| Editor.EditableGrid.Save | src/components/GradeEditavel.jsx:79-85 | "Salvar" keeps the grid, hands it to the parent, which hands that object back as the prop, and ends editing |
| Editor.EditableGrid.Cancel | src/components/GradeEditavel.jsx:87-91 | "Cancelar" makes the grid the prop as it holds now, with every in-place write on the shared days, shares the prop's days again, and ends editing |
| Editor.EditableGrid.EditSlot | src/components/GradeEditavel.jsx:277-280 | a cell opens for editing only in edit mode |
| Editor.EditableGrid.CloseSlot | src/components/GradeEditavel.jsx:493 | closing the editor clears the open cell |
| Editor.EditableGrid.AddAppointment | src/components/GradeEditavel.jsx:282-302 | the new grid is `Added` of the old grid and the open cell; the prop takes the new grid's shared days; the invariant is kept |
| Editor.EditableGrid.RemoveAppointment | src/components/GradeEditavel.jsx:304-314 | the new grid is `Removed` of the old grid and the open cell; the prop takes the new grid's shared days |
| Editor.EditableGrid.DropAppointment | src/components/GradeEditavel.jsx:127-164 | the new grid and the outcome are `Dropped` of the old grid, as the code orders the steps; the prop takes the new grid's shared days, also when the drop is refused or fails |
| Settings.Initial | src/components/ConfiguracoesSistema.jsx:9-18 | both tables come from the props or are empty; nothing pending, form empty and closed |
| Settings.Rename | src/components/ConfiguracoesSistema.jsx:40-50 | only the name of that professional changes; other fields, other professionals and the demand table are kept; changes become pending |
| Settings.Recolour | src/components/ConfiguracoesSistema.jsx:52-62 | only the colour of that professional changes; everything else is kept; changes become pending |
| Settings.Remove | src/components/ConfiguracoesSistema.jsx:64-69 | exactly that key leaves the catalog, and every other entry is kept |
| Settings.Lower | src/components/ConfiguracoesSistema.jsx:77 | a capital becomes the same letter in lower case; whitespace stays whitespace and every other character is left alone |
| Settings.Clean | src/components/ConfiguracoesSistema.jsx:77 | the cleaned specialty has no whitespace, no capital letter, and is no longer than the input |
| Settings.CleanChar | src/components/ConfiguracoesSistema.jsx:77 | one character cleans to nothing when it is whitespace, and to its lowered self otherwise |
| Settings.CleanAppend | src/components/ConfiguracoesSistema.jsx:77 | the cleaning of a concatenation is the concatenation of the cleanings, so with `CleanChar` it is the input's non-whitespace characters lowered, in order |
| Settings.CleanIdempotent | src/components/ConfiguracoesSistema.jsx:77 | cleaning twice equals cleaning once |
| Settings.CleanClean | src/components/ConfiguracoesSistema.jsx:77 | a string already without whitespace or capitals is unchanged |
| Settings.Digits | src/components/ConfiguracoesSistema.jsx:77 | the timestamp's decimal text is non-empty and all digits |
| Settings.DigitsValue | src/components/ConfiguracoesSistema.jsx:77 | the text reads back in decimal as the timestamp, with no leading zero unless it is 0 |
| Settings.DigitsInjective | src/components/ConfiguracoesSistema.jsx:77 | different timestamps give different texts |
| Settings.NewIdShape | src/components/ConfiguracoesSistema.jsx:77 | the id is the cleaned specialty followed by the timestamp; one specialty at two instants gives two ids |
| Settings.FullWeekEveryTime | src/components/ConfiguracoesSistema.jsx:83-89 | a new professional is available at every time of every day |
| Settings.Add | src/components/ConfiguracoesSistema.jsx:71-97 | an empty name or specialty changes nothing; otherwise exactly the new id joins, with the form's name and colour and the full week; the form is reset and closed |
| Settings.Parsed | src/components/ConfiguracoesSistema.jsx:104 | `parseInt(q) \|\| 0`: a failed parse gives 0, otherwise the parsed integer |
| Settings.SetQuantity | src/components/ConfiguracoesSistema.jsx:99-109 | the catalog and the form are kept, and changes become pending |
| Settings.SetQuantitySpec | src/components/ConfiguracoesSistema.jsx:99-109 | the edited (child, type) reads back the parsed value; every other (child, type) keeps its quantity; a new type is appended |
| Settings.SetQuantityUnique | src/components/ConfiguracoesSistema.jsx:99-109 | the edit never repeats a child or a type |
| Settings.Save | src/components/ConfiguracoesSistema.jsx:111-121 | both tables are handed on unchanged; nothing is pending and editing ends |
| Settings.Cancel | src/components/ConfiguracoesSistema.jsx:123-130 | both tables go back to the props, the form is reset, nothing is pending |
| Settings.SummaryBothChildren | src/components/ConfiguracoesSistema.jsx:369-371 | the summary is henrique's total plus thiago's |
| Settings.ChildTotalsSum | src/components/ConfiguracoesSistema.jsx:369-371 | without repeated children, the two children's totals add up to the whole table |
| Settings.SummaryIsDemandSum | src/components/ConfiguracoesSistema.jsx:369-371 | the summary equals the total the optimiser must place (`atendimentosNecessarios`) |
| Settings.NeedsSumUpdate | src/components/ConfiguracoesSistema.jsx:102-105 | setting one type changes the child's total by new minus old |
| Settings.SetQuantityTotal | src/components/ConfiguracoesSistema.jsx:99-109 | each quantity edit moves the summary total by exactly new minus old quantity |

## Left out

- Rendering, alerts, drag-highlight state and the charts computed in `dadosGraficos`: these are presentation and do not touch the scheduling state.
- Browser storage (`carregarDados`, `salvarDados`, the "stored grid wins" load rule): the constructor takes the prop as a parameter and starts from it, as the code does when nothing is stored. The effect that re-reads the prop while nothing is stored (`GradeEditavel.jsx:58-63`) depends on storage and is left out with it.
- React effects: re-running the optimiser on configuration changes, the prop-sync effect of the configuration screen, and the `onProfissionaisChange` callback, whose arguments are returned (`Settings.Save`). The editor's `onGradeChange` round trip is `Editor.EditableGrid.Publish`, which the caller invokes after each change of the grid rather than React scheduling it.
- The drag plumbing: `handleDragStart`, `dataTransfer` JSON and the `itemArrastando` guard. The drop takes the source cell, the index and the dragged session as parameters.
- The financial dashboard, the predictive-analysis panel and the build configuration: they are not part of the scheduling logic.
- `Settings.Parsed`: `parseInt`'s string parsing is not modelled; its result is a parameter, `None` for `NaN`.
- `Settings.Clean`, `Settings.Lower`: only ASCII whitespace and ASCII capitals; JavaScript's Unicode case mapping and `\s` class are not modelled.
- `Settings.Add`: `Date.now()` is the parameter `timestamp`.
- `Optimizer.EfficiencyOf`: computed exactly on integers. JavaScript computes `alocados / necessarios * 100` in floating point before rounding, which can differ where the exact value is a half.
- Cancel (`Editor.EditableGrid.Cancel`) and the in-place writes: sharing is tracked per day. A day object the prop has with no time slot in it (`{}`) is not seen as shared, so a slot the editor creates inside such a day is not shown reaching the prop. Sharing between two different editor grids, or between the grid and the optimiser's results, is not modelled.
- The catalog is an unordered map. The engine reads it only by id, so its key order never matters. The demand table keeps its key order, because that order decides first fit.
- Days, times and children are enumerations. An availability time outside the four times, or a child key other than the two children, would make the code read `undefined` and throw. The model cannot express such inputs.
- `Allocation.FirstFit`: the optimiser's grid always has every list, so its push is a plain cell update (`Grids.Put`). `Grids.PutIsSet` relates it to the editor's creating write.
