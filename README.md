# Wedding planner: seating chart, services and page logic in Dafny

This project models the logic of a wedding-planning web app. The app has five mock
entity services (tasks, guests, vendors, budget items, timeline milestones), each an
in-memory array of records. A seating-chart service keeps one chart object. The pages
and organisms derive what they show from the loaded lists: filters, counts, sort
orders, badges and totals. The Seating Chart page adds a canvas with drag and drop
and a PDF guest roster. A countdown molecule splits the time left into days, hours,
minutes and seconds.

How the model is laid out:

- **Services.** They are schema-less, so they work on `Records.Record`, a map from
  field names to JavaScript values. Object spread is map union. `parseInt` and the
  `Math.max` conversions are written out, including `NaN`.
  - `ListStore.Store` is one class for all five entity services. Five factory methods
    build it, one per service.
  - `SeatingChartService.SeatingChartStore` holds the chart.
- **Pages and organisms.** They work on typed entities (`Entities.Task`, `Guest`,
  `Vendor`, `BudgetItem`, `Milestone`). A page whose handlers change its state is a
  class. The handler's call to a service becomes a boolean parameter that says
  whether the service call succeeded.
- **Seating Chart page.** `SeatingChart.View` is a class over `seatingData`,
  `guests`, `draggedItem`, `dragOffset` and `canvasSize`.
  - Its mouse-up hands the chart to a `SeatingChartStore`.
  - The export builds the roster with the page's own loop (`BuildRoster`), proved
    equal to the specification function `Roster`.
  - Adding a table changes only the page's state. The chart is saved at the next
    mouse-up after a drag.
- **Sorting.** It is a stable insertion sort driven by the page's comparator.
  Sortedness is proved wherever the comparator is a consistent ordering.

## Model

| member | source | states |
|---|---|---|
| ListStore.IndexOfId | src/services/api/taskService.js:21 | the index of the first record with `Id === id`, and None exactly when no record has it |
| ListStore.RemoveAt | src/services/api/taskService.js:43 | `splice(i, 1)`: one element shorter, the elements before `i` kept, the later ones shifted down by one |
| ListStore.NextId | src/services/api/taskService.js:31 | the new Id is above every stored Id and is one more than some stored Id |
| ListStore.WithId | src/services/api/taskService.js:32 | the created record has the new Id, the caller's other fields, and no other keys |
| ListStore.Store.constructor | src/services/api/taskService.js:1 | the store starts with the fixture records |
| ListStore.Store.GetAll | src/services/api/taskService.js:5-8 | a copy with the same records in the same order |
| ListStore.Store.GetById | src/services/api/taskService.js:10-17 | the error is the store's "not found" message exactly when no record has the Id; otherwise the first record with it |
| ListStore.Store.Update | src/services/api/taskService.js:19-27 | unknown Id: "not found" and the store unchanged; otherwise the first match merged with the updates (the updates win), written back in place only by the task store |
| ListStore.Store.Create | src/services/api/taskService.js:29-35 | appends exactly one record, the caller's fields with `Id` one past the largest, and returns it |
| ListStore.Store.Delete | src/services/api/taskService.js:37-45 | unknown Id: "not found" and the store unchanged; otherwise exactly the first match removed and the rest kept in order |
| ListStore.NewTaskStore | src/services/api/taskService.js:13-25 | the task store: message 'Task not found', update writes back |
| ListStore.NewGuestStore | src/services/api/guestService.js:19-26 | the guest store: message 'Guest not found', update only returns the merge |
| ListStore.NewVendorStore | src/services/api/vendorService.js:19-26 | the vendor store: message 'Vendor not found', update only returns the merge |
| ListStore.NewBudgetStore | src/services/api/budgetService.js:19-26 | the budget store: message 'Budget item not found', update only returns the merge |
| ListStore.NewMilestoneStore | src/services/api/timelineService.js:19-26 | the milestone store: message 'Milestone not found', update only returns the merge |
| ListStore.DeleteRemovesOne | src/services/api/guestService.js:38-42 | a successful delete lowers the number of records with that Id by exactly one |
| ListStore.DeleteTwice | src/services/api/guestService.js:38-42 | a second delete of the same Id fails exactly when the Id was unique |
| ListStore.CountIdZero | src/services/api/guestService.js:38-41 | the lookup misses exactly when no record carries the Id |
| ListStore.CreateThenFind | src/services/api/guestService.js:28-34 | the created record is the only one with its Id, so finding that Id returns it |
| ListStore.IndexOfIdAfterMisses | src/services/api/guestService.js:38 | `findIndex` returns the first index that carries the Id |
| ListStore.UpdateThenFind | src/services/api/taskService.js:21-26 | after a written-back update that keeps the Id, the lookup finds the merged record at the same place |
| Records.Merge | src/services/api/taskService.js:25 | spread: the keys of both records, the updates' values where present and the base's values elsewhere |
| Records.ParseInt | src/services/api/seatingChartService.js:32-33 | `parseInt(String(v))`: always a number or `NaN` |
| Records.ParseIntString | src/services/api/seatingChartService.js:32-33 | `parseInt` of a string is always a number or `NaN` (its value on printed integers is `Records.ParseSignedDigits`) |
| Records.StringToNumber | src/services/api/seatingChartService.js:45 | the string-to-number conversion `Math.max` applies: always a number or `NaN` |
| Records.ParseIntOfNumber | src/services/api/seatingChartService.js:32-33 | `parseInt` gives back any integer of the model (record numbers are unbounded integers printed in plain decimal; see `Records.ToJsString` under Left out) |
| Records.ParseSignedDigits | src/services/api/seatingChartService.js:32-33 | a minus sign and the decimal digits of `m` read back as `-m` or `m` |
| Records.ParseIntOfNaN | src/services/api/seatingChartService.js:32-33 | `parseInt` of `NaN` is `NaN` |
| Records.ParseIntIdempotent | src/services/api/seatingChartService.js:32-33 | normalising with `parseInt` twice is normalising once |
| Records.ParseMagnitudeOfNatString | src/services/api/seatingChartService.js:32-33 | the digits `String(m)` prints read back as `m` |
| Records.ParseIntLeadingDigits | src/services/api/seatingChartService.js:66 | `parseInt` of white space, the digits of `m`, then anything not starting with a digit (nor with `x` after a lone 0) is `m`: a string id such as `" 12 chairs"` names table 12 |
| Records.TrimStartBlanks | src/services/api/seatingChartService.js:66 | leading white space is all that is skipped before the digits |
| Records.ParseMagnitudeThenText | src/services/api/seatingChartService.js:66 | the digit scan reads the digits of `m` and stops at the first non-digit |
| Text.LeadingDigitsAppend | src/services/api/seatingChartService.js:66 | the digit scan stops exactly where the digits do |
| Records.ToNumber | src/services/api/seatingChartService.js:45 | the number `Math.max` sees: a number stays itself, everything else becomes a number or `NaN` |
| Records.MaxWithZero | src/services/api/seatingChartService.js:45 | `Math.max(...vals, 0)` is a number exactly when every value is; it is then at least 0 and at least each value, and it is 0 or one of the values |
| Records.PlusOne | src/services/api/seatingChartService.js:47 | `+ 1` keeps `NaN` and adds one to a number |
| SeatingChartService.Normalise | src/services/api/seatingChartService.js:30-34 | a stored table has `parseInt` of its `Id` and `number` and keeps every other field |
| SeatingChartService.WithIdAndNumber | src/services/api/seatingChartService.js:31-33 | sets `Id` and `number` and keeps every other field |
| SeatingChartService.Normalised | src/services/api/seatingChartService.js:28-36 | the stored chart: the same other fields, the tables in order each normalised, and the unassigned guests or `[]` when absent |
| SeatingChartService.NextValue | src/services/api/seatingChartService.js:45-48 | `Math.max(..., 0) + 1` is a number exactly when every table's value is; it is then at least 1, above every value, and either 1 or one more than some table's value |
| SeatingChartService.DefaultTable | src/services/api/seatingChartService.js:46-54 | a default table has exactly the eight fields, at (200, 200), 120 by 120, round, with 8 seats |
| SeatingChartService.NewTableRecord | src/services/api/seatingChartService.js:45-56 | the fields of `tableData` win (even `Id` and `number`); the defaults fill the rest |
| SeatingChartService.SeatingChartStore.constructor | src/services/api/seatingChartService.js:4 | the store starts with the fixture chart |
| SeatingChartService.SeatingChartStore.GetSeatingChart | src/services/api/seatingChartService.js:8-17 | copies of both arrays with the same contents, and the same other fields |
| SeatingChartService.SeatingChartStore.UpdateSeatingChart | src/services/api/seatingChartService.js:19-39 | missing chart or non-array tables: 'Invalid seating chart data' and the store unchanged; otherwise the normalised chart is stored and returned |
| SeatingChartService.SeatingChartStore.AddTable | src/services/api/seatingChartService.js:41-61 | appends exactly the new table record and returns it |
| SeatingChartService.SeatingChartStore.DeleteTable | src/services/api/seatingChartService.js:63-79 | an id parsing to 0 or `NaN`: 'Invalid table ID'; no table with it: 'Table not found'; both leave the store unchanged; otherwise exactly the first match is removed |
| SeatingChartService.SeatingChartStore.AssignGuestToTable | src/services/api/seatingChartService.js:81-87 | always reports success and changes nothing |
| SeatingChartService.ResaveIsNoOp | src/services/api/seatingChartService.js:28-36 | storing a chart whose tables are already normal stores that very chart |
| SeatingChartService.NormaliseIdempotent | src/services/api/seatingChartService.js:30-34 | normalising a table twice is normalising it once |
| SeatingChartService.UpdatedTablesNormal | src/services/api/seatingChartService.js:28-36 | after an update every stored table is normal, with a numeric or `NaN` Id and number |
| SeatingChartService.AddTableFreshKeys | src/services/api/seatingChartService.js:45-48 | with numeric Ids and numbers, and none given in `tableData`, the new Id and number are at least 1 and unused |
| SeatingChartService.AddTableNaNId | src/services/api/seatingChartService.js:45 | one table without an Id makes the new table's Id `NaN` |
| SeatingChartService.MissingIdInvalid | src/services/api/seatingChartService.js:66-69 | `deleteTable(undefined)` is rejected as an invalid id |
| SeatingChartService.ZeroIdInvalid | src/services/api/seatingChartService.js:66-69 | `deleteTable(0)` is rejected as an invalid id |
| SeatingChart.GridOrigin | src/components/pages/SeatingChart.jsx:101 | unassigned guest `i` sits at x 20, 160 or 300 exactly when `i mod 3` is 0, 1 or 2, on row `i / 3`, rows 60 apart from y 20 |
| SeatingChart.GridCardsApart | src/components/pages/SeatingChart.jsx:142-143 | two different 120×40 grid cards share no point, not even an edge |
| SeatingChart.FirstCardFrom | src/components/pages/SeatingChart.jsx:194-204 | the first guest card around a table under the point, or none |
| SeatingChart.FirstGridCardFrom | src/components/pages/SeatingChart.jsx:183-189 | the first unassigned-guest card under the point, or none |
| SeatingChart.AssignedAt | src/components/pages/SeatingChart.jsx:191-205 | a hit assigned guest is a listed guest seated at one of the chart's tables |
| SeatingChart.AssignedAtMiss | src/components/pages/SeatingChart.jsx:191-207 | no assigned guest is found exactly when no card around any table is under the point |
| SeatingChart.AssignedAtFirstHit | src/components/pages/SeatingChart.jsx:192-202 | the guest found is the one on the first card hit, tables in order and within a table its guests in list order |
| SeatingChart.CardHitShift | src/components/pages/SeatingChart.jsx:192 | dropping the first table renumbers the cards of the others by one table |
| SeatingChart.TableGuests | src/components/pages/SeatingChart.jsx:193 | the listed guests whose table number is the table's, in list order (membership in both directions is `SeatingChart.InTableGuests`) |
| SeatingChart.TableAt | src/components/pages/SeatingChart.jsx:175-180 | the first table whose closed box holds the point, or none when no box does; the shape is ignored |
| SeatingChart.ItemAtAsWritten | src/components/pages/SeatingChart.jsx:171-208 | as written: no chart gives null; a table under the point wins (the first in order); otherwise the result is the assigned guest `SeatingChart.AssignedAt` finds (the first card hit), or null when there is none; a guest hit is only ever a listed guest seated at one of the chart's tables |
| SeatingChart.ItemAt | src/components/pages/SeatingChart.jsx:171-208 | as intended: no chart gives null; a table under the point wins (the first in order); a guest is hit only when no table is; with no unassigned-guest card under the point either, the result is the assigned guest `SeatingChart.AssignedAt` finds, or null when there is none |
| SeatingChart.UnassignedGuestSelected | src/components/pages/SeatingChart.jsx:183-189 | a point on unassigned guest `i`'s card, clear of every table, selects that guest |
| SeatingChart.AsWrittenMissesUnassigned | src/components/pages/SeatingChart.jsx:183-189 | as written, with no table and no assigned card under the point, nothing is selected, even on an unassigned guest's card |
| SeatingChart.AsWrittenAgreesOffGrid | src/components/pages/SeatingChart.jsx:171-208 | away from the unassigned-guest cards the code's hit test and the corrected one give the same item |
| SeatingChart.UnassignedClickExample | src/components/pages/SeatingChart.jsx:183-189 | a click at (30, 30) on the only unassigned guest: as written nothing, as intended that guest |
| SeatingChart.DragOffset | src/components/pages/SeatingChart.jsx:219 | grab point minus offset is the table's origin; a guest (no `x`, `y`) has the cursor itself as offset |
| SeatingChart.MoveTable | src/components/pages/SeatingChart.jsx:231-237 | tables with the dragged Id move to (x, y); all other tables and all other fields are unchanged |
| SeatingChart.MoveTwice | src/components/pages/SeatingChart.jsx:231-237 | successive drag steps: only the last one counts |
| SeatingChart.MoveInPlace | src/components/pages/SeatingChart.jsx:231-237 | moving a table to where it is changes nothing |
| SeatingChart.NewTable | src/components/pages/SeatingChart.jsx:254-263 | a new table's Id and number are above every existing one (so unused), at least 1, one past the largest or 1; it sits at (200, 200), 100 by 100, round, 8 seats |
| SeatingChart.ConfirmedGuests | src/components/pages/SeatingChart.jsx:58 | keeps exactly the guests whose RSVP is 'Confirmed' |
| SeatingChart.ConfirmedGuestsAppend | src/components/pages/SeatingChart.jsx:58 | the confirmed guests keep the list's order |
| SeatingChart.LoadError | src/components/pages/SeatingChart.jsx:60 | the error text is the message, or the default when the message is empty; never empty |
| SeatingChart.CanvasSize | src/components/pages/SeatingChart.jsx:36-37 | width in [400, 1200] and equal to the container less 48 when that fits; height in [300, 800] and three quarters of the width capped at 800 (the 300 floor never binds) |
| SeatingChart.GuestText | src/components/pages/SeatingChart.jsx:326 | a roster row is the bullet then the name, followed by ' (+1)' exactly for a plus-one and by nothing otherwise |
| SeatingChart.EntryText | src/components/pages/SeatingChart.jsx:322-326 | a heading reads `Table N:`; a guest row reads as its guest text |
| SeatingChart.GuestLines | src/components/pages/SeatingChart.jsx:325-328 | one row per guest |
| SeatingChart.GuestLinesAt | src/components/pages/SeatingChart.jsx:325-328 | the i-th row is the i-th guest's entry, at x 25, 8 times i below the first |
| SeatingChart.Block | src/components/pages/SeatingChart.jsx:320-329 | one table's block: one line more than the table has guests, its heading first, at `y` and x 20 |
| SeatingChart.BlockRows | src/components/pages/SeatingChart.jsx:320-329 | after the heading, the block's rows name the table's guests in order from `y + 10` down, 8 apart |
| SeatingChart.BlockLayout | src/components/pages/SeatingChart.jsx:320-329 | a block runs top to bottom and ends above where the next table starts |
| SeatingChart.RosterFrom | src/components/pages/SeatingChart.jsx:318-331 | the roster from table `i` on: the table's block when it has guests, then the rest from where the block ends (its layout and contents are `SeatingChart.RosterLayout` and `SeatingChart.RosterFromLists`) |
| SeatingChart.Roster | src/components/pages/SeatingChart.jsx:317-331 | the whole roster, from the first table at `yPos` 40 (it lists exactly the seated listed guests: `SeatingChart.RosterListsSeatedGuests`) |
| SeatingChart.DescendingConcat | src/components/pages/SeatingChart.jsx:318-331 | two top-to-bottom runs, one above the other, make one |
| SeatingChart.RosterLayout | src/components/pages/SeatingChart.jsx:317-331 | the roster runs strictly top to bottom from its start, so no two lines share a row |
| SeatingChart.InTableGuests | src/components/pages/SeatingChart.jsx:319 | a guest is among a table's guests exactly when it is listed with that table's number |
| SeatingChart.ListsConcat | src/components/pages/SeatingChart.jsx:318-331 | a guest is listed in two runs of lines exactly when it is listed in one of them |
| SeatingChart.ListsBlock | src/components/pages/SeatingChart.jsx:325-328 | a table's block lists exactly that table's guests |
| SeatingChart.SeatedFromStep | src/components/pages/SeatingChart.jsx:318-331 | a guest sits at one of the tables from `i` on exactly when it sits at table `i` or at one after it |
| SeatingChart.SkipTableLists | src/components/pages/SeatingChart.jsx:319-320 | a table without guests adds nothing: no guest of the list sits at it |
| SeatingChart.TableBlockLists | src/components/pages/SeatingChart.jsx:319-329 | a table with guests lists exactly the listed guests seated at it, ahead of the rest of the roster |
| SeatingChart.RosterFromLists | src/components/pages/SeatingChart.jsx:318-331 | from any table on, the roster lists exactly the listed guests seated at those tables |
| SeatingChart.RosterListsSeatedGuests | src/components/pages/SeatingChart.jsx:318-331 | the roster lists a guest exactly when the guest is in the page's list and seated at a table of the chart |
| SeatingChart.RosterOnlyConfirmed | src/components/pages/SeatingChart.jsx:58 | the roster names only confirmed guests |
| SeatingChart.BuildRoster | src/components/pages/SeatingChart.jsx:317-331 | the `yPos` loop produces exactly the roster, tables without guests skipped |
| SeatingChart.GuestRows | src/components/pages/SeatingChart.jsx:325-328 | the inner loop produces a table's guest rows and leaves `yPos` 8 lower per guest |
| SeatingChart.WriteTable | src/components/pages/SeatingChart.jsx:320-329 | one pass of the outer loop writes the table's block and moves `yPos` past its heading, its rows and a 5-point gap |
| SeatingChart.TableRecord | src/components/pages/SeatingChart.jsx:243 | a table handed to the service carries its Id and number as numbers |
| SeatingChart.TableRecordNormal | src/components/pages/SeatingChart.jsx:243 | the service's normalisation leaves a page table unchanged |
| SeatingChart.SaveStoresChart | src/components/pages/SeatingChart.jsx:243 | saving the page's chart stores exactly its fields, its tables and its unassigned guests |
| SeatingChart.View.constructor | src/components/pages/SeatingChart.jsx:17-23 | the initial state: no chart, no guests, no error, nothing dragged, offset (0, 0), canvas 800 by 600 |
| SeatingChart.View.Load | src/components/pages/SeatingChart.jsx:49-64 | success: the chart and the confirmed guests, and no error; failure: the error text, and chart and guests untouched |
| SeatingChart.View.UpdateCanvasSize | src/components/pages/SeatingChart.jsx:32-47 | with a container the canvas takes the clamped size (the positivity guard always passes); without one nothing changes |
| SeatingChart.View.MouseDown | src/components/pages/SeatingChart.jsx:210-221 | the item under the cursor becomes the dragged item with its grab offset; a miss changes nothing |
| SeatingChart.View.MouseMove | src/components/pages/SeatingChart.jsx:223-239 | a dragged table goes to the cursor less the offset, and nothing else changes; with a dragged guest or no drag nothing changes |
| SeatingChart.View.MouseUp | src/components/pages/SeatingChart.jsx:241-251 | with an item dragged the chart is saved to the store once, and the drag ends whatever the save gave; otherwise nothing changes |
| SeatingChart.View.AddTable | src/components/pages/SeatingChart.jsx:253-269 | appends exactly the new table; all else unchanged |
| SeatingChart.View.ExportPdf | src/components/pages/SeatingChart.jsx:271-339 | missing canvas, zero size, no context and empty capture each stop the export, in that order; a save carries the roster of the chart's guests, and every guest it lists is on the page and confirmed (the page's guests are confirmed by `View.Valid`) |
| Sorting.Insert | src/components/organisms/TaskList.jsx:16 | inserting adds exactly `x` to the list |
| Sorting.Sort | src/components/organisms/TaskList.jsx:16 | the sorted list is a permutation of the input |
| Sorting.SortElements | src/components/organisms/TaskList.jsx:16 | every element of the sorted list comes from the input |
| Sorting.InsertSorted | src/components/organisms/TaskList.jsx:16-28 | under a consistent comparator, inserting into a sorted list keeps it sorted |
| Sorting.InsertAllOk | src/components/organisms/TaskList.jsx:16 | inserting keeps every element within the comparator's domain |
| Sorting.SortSorted | src/components/organisms/TaskList.jsx:16-28 | under a consistent comparator the result is sorted |
| TaskList.PriorityBadge | src/components/organisms/TaskList.jsx:7-14 | High is error, Medium is warning, and anything else (Low included) is info |
| TaskList.Rank | src/components/organisms/TaskList.jsx:22 | a rank exists exactly for High, Medium and Low, and lies in 1..3 |
| TaskList.TaskOrder | src/components/organisms/TaskList.jsx:16-28 | an incomplete task sorts before a completed one; with equal completion a known higher priority first; a known and an unknown priority tie (`NaN` read as 0); equal ranks, two unknown priorities included, order by due date, a tie exactly for equal dates |
| TaskList.SortedTasks | src/components/organisms/TaskList.jsx:16-28 | the shown list is a permutation of the tasks |
| TaskList.TaskOrderConsistent | src/components/organisms/TaskList.jsx:16-28 | on tasks with a known priority the comparator is a consistent ordering |
| TaskList.SortedTasksOrder | src/components/organisms/TaskList.jsx:16-28 | incomplete tasks come before completed ones, then higher priority, then earlier due date |
| TaskList.UnknownPriorityTies | src/components/organisms/TaskList.jsx:22-25 | a priority outside the three compares equal to every known one (the difference is `NaN`) |
| TasksPage.MatchesFilters | src/components/pages/Tasks.jsx:71-79 | an empty filter matches everything; the status filter matches completed tasks for 'Completed', open ones for 'Pending', and nothing else (used by `TasksPage.NoFiltersShowAll` and `TasksPage.UnknownStatusShowsNothing`) |
| TasksPage.FilteredTasks | src/components/pages/Tasks.jsx:71-79 | exactly the tasks passing all three filters |
| TasksPage.NoFiltersShowAll | src/components/pages/Tasks.jsx:72-76 | with no filter every task is shown, in order |
| TasksPage.FilteredTasksAppend | src/components/pages/Tasks.jsx:71 | filtering keeps the list's order |
| TasksPage.UnknownStatusShowsNothing | src/components/pages/Tasks.jsx:74-76 | a status other than '', Completed or Pending hides every task |
| TasksPage.StatusViewsPartition | src/components/pages/Tasks.jsx:74-76 | the Completed and Pending views split the list between them |
| TasksPage.CompletedCount | src/components/pages/Tasks.jsx:81 | the number of completed tasks (with the other two counts: `TasksPage.HeaderCounts`) |
| TasksPage.PendingCount | src/components/pages/Tasks.jsx:82 | the number of open tasks |
| TasksPage.HighPriorityCount | src/components/pages/Tasks.jsx:83 | the number of open High tasks |
| TasksPage.HeaderCounts | src/components/pages/Tasks.jsx:81-83 | completed plus pending is the total; high-priority open tasks are at most the pending ones |
| TasksPage.Categories | src/components/pages/Tasks.jsx:85 | each category of a task appears once, and only used categories appear (their order of first use is `TasksPage.CategoriesSnoc`) |
| TasksPage.CategoriesSnoc | src/components/pages/Tasks.jsx:85 | the `Set` keeps insertion order: one more task adds its category at the end, and only when the category is new |
| Common.DistinctAfterAppend | src/components/pages/Tasks.jsx:85 | the distinct elements of a concatenation are those of the first part, then the new ones of the second |
| TasksPage.Toggled | src/components/pages/Tasks.jsx:44-46 | the list keeps its length after a toggle |
| TasksPage.ToggleFlipsOne | src/components/pages/Tasks.jsx:42-46 | with unique Ids a toggle flips that task's completion and leaves every other task alone |
| TasksPage.ToggleTwice | src/components/pages/Tasks.jsx:42-46 | toggling the same task twice gives back the list |
| TasksPage.WithoutTask | src/components/pages/Tasks.jsx:57 | exactly the tasks with another Id remain |
| TasksPage.WithoutTaskAppend | src/components/pages/Tasks.jsx:57 | the tasks left keep their order |
| TasksPage.WithoutTaskUnknownId | src/components/pages/Tasks.jsx:57 | deleting an Id no task has leaves the list as it was |
| TasksPage.Page.constructor | src/components/pages/Tasks.jsx:15 | the page starts with the loaded tasks |
| TasksPage.Page.ToggleTask | src/components/pages/Tasks.jsx:40-52 | an unknown Id sends nothing; otherwise the flipped task is sent, and the list changes only when the store accepts it |
| TasksPage.Page.DeleteTask | src/components/pages/Tasks.jsx:54-62 | the list drops the Id only after a successful store delete |
| TasksPage.DeleteCount | src/components/pages/Tasks.jsx:57 | a delete removes exactly the tasks with that Id |
| TimelineView.SortedMilestones | src/components/organisms/TimelineView.jsx:7 | the shown milestones are a permutation of the input |
| TimelineView.ByDate | src/components/organisms/TimelineView.jsx:7 | negative exactly for an earlier date and zero exactly for the same date |
| TimelineView.SortedMilestonesAscending | src/components/organisms/TimelineView.jsx:7 | milestones are shown in ascending date order |
| TimelineView.StatusBadge | src/components/organisms/TimelineView.jsx:9-16 | completed is success, in-progress is warning, anything else is info |
| TimelineView.DotColour | src/components/organisms/TimelineView.jsx:37-43 | the dot is success, warning or primary |
| TimelineView.DotMatchesBadge | src/components/organisms/TimelineView.jsx:37-43 | the dot agrees with the badge, except that the fallback info becomes primary |
| TimelineView.StatusLabel | src/components/organisms/TimelineView.jsx:59 | the same length; only the first hyphen becomes a space |
| TimelineView.StatusLabelFirstHyphen | src/components/organisms/TimelineView.jsx:59 | the first hyphen becomes a space and any later one survives: 'in-progress' reads 'in progress', 'a-b-c' reads 'a b-c' |
| TimelineView.StatusLabelNoHyphen | src/components/organisms/TimelineView.jsx:59 | a status without a hyphen is shown as it is |
| GuestTable.FilteredGuests | src/components/organisms/GuestTable.jsx:12-17 | exactly the guests matching the search (name or e-mail, ignoring the case of ASCII letters) and the status |
| GuestTable.MatchesSearch | src/components/organisms/GuestTable.jsx:13-14 | the lower-cased name or e-mail contains the lower-cased term (`GuestTable.SearchIgnoresCase`, `GuestTable.NameFindsGuest`) |
| GuestTable.MatchesStatus | src/components/organisms/GuestTable.jsx:15 | an empty status matches every guest; otherwise the RSVP must equal it |
| GuestTable.EmptySearchShowsAll | src/components/organisms/GuestTable.jsx:12-17 | no term and no status show every guest, in order |
| GuestTable.SearchIgnoresCase | src/components/organisms/GuestTable.jsx:13-14 | lower-casing the term first changes nothing: the case of its ASCII letters does not matter |
| GuestTable.NameFindsGuest | src/components/organisms/GuestTable.jsx:13 | searching for a guest's name finds that guest unless the status excludes it |
| GuestTable.StatusBadge | src/components/organisms/GuestTable.jsx:21-28 | Pending is warning, Confirmed success, Declined error, anything else info |
| GuestTable.TableCell | src/components/organisms/GuestTable.jsx:89 | 'Not assigned' exactly for a missing table or table 0; otherwise the number |
| GuestsPage.CountsWithinTotal | src/components/pages/Guests.jsx:61-63 | the three RSVP counts never exceed the list |
| GuestsPage.CountsCoverKnownStatuses | src/components/pages/Guests.jsx:61-63 | with only the three statuses the counts add up to the list |
| GuestsPage.ConfirmedCount | src/components/pages/Guests.jsx:61 | the number of guests whose RSVP is 'Confirmed' |
| GuestsPage.PendingCount | src/components/pages/Guests.jsx:62 | the number of guests whose RSVP is 'Pending' |
| GuestsPage.DeclinedCount | src/components/pages/Guests.jsx:63 | the number of guests whose RSVP is 'Declined' |
| GuestsPage.ShowsEmptyState | src/components/pages/Guests.jsx:83 | the empty state shows exactly when there are no guests |
| GuestsPage.WithoutGuest | src/components/pages/Guests.jsx:47 | exactly the guests with another Id remain |
| GuestsPage.WithoutGuestAppend | src/components/pages/Guests.jsx:47 | the guests left keep their order |
| GuestsPage.WithoutGuestUnknownId | src/components/pages/Guests.jsx:47 | deleting an Id no guest has leaves the list as it was |
| GuestsPage.Page.constructor | src/components/pages/Guests.jsx:14 | the page starts with the loaded guests |
| GuestsPage.Page.DeleteGuest | src/components/pages/Guests.jsx:44-52 | the list drops the Id only after a successful store delete |
| GuestsPage.DeleteLowersCounts | src/components/pages/Guests.jsx:47 | a delete never raises an RSVP count |
| VendorGrid.StatusBadge | src/components/organisms/VendorGrid.jsx:7-15 | paid in full, deposit paid with a balance, or payment due when the deposit is not paid, each in both directions |
| VendorGrid.PaidInFullLabel | src/components/organisms/VendorGrid.jsx:8-9 | the card says 'Paid in Full' exactly for a paid deposit and a zero balance |
| VendorGrid.ShowsBalanceDue | src/components/organisms/VendorGrid.jsx:72 | the balance line shows exactly for a positive balance |
| VendorGrid.BalanceLineExcludesPaidInFull | src/components/organisms/VendorGrid.jsx:72 | a card with a balance line is never badged as a success |
| VendorsPage.TotalCost | src/components/pages/Vendors.jsx:61 | the sum of the vendors' costs |
| VendorsPage.TotalCostAppend | src/components/pages/Vendors.jsx:61 | the total cost of two lists together is the sum of their totals |
| VendorsPage.TotalPaid | src/components/pages/Vendors.jsx:62 | total paid is total cost minus the total balance due |
| VendorsPage.FullyPaidCount | src/components/pages/Vendors.jsx:63 | at most the number of vendors |
| VendorsPage.FullyPaidMatchesGrid | src/components/pages/Vendors.jsx:63 | the page counts exactly the cards the grid labels 'Paid in Full' |
| VendorsPage.WithoutVendor | src/components/pages/Vendors.jsx:47 | exactly the vendors with another Id remain |
| VendorsPage.WithoutVendorAppend | src/components/pages/Vendors.jsx:47 | the vendors left keep their order |
| VendorsPage.WithoutVendorUnknownId | src/components/pages/Vendors.jsx:47 | deleting an Id no vendor has leaves the list as it was |
| VendorsPage.Page.constructor | src/components/pages/Vendors.jsx:14 | the page starts with the loaded vendors |
| VendorsPage.Page.DeleteVendor | src/components/pages/Vendors.jsx:44-52 | the list drops the Id only after a successful store delete |
| VendorsPage.DeleteSplitsCost | src/components/pages/Vendors.jsx:47 | the total cost is the cost of the vendors kept plus that of the vendors removed |
| BudgetPage.TotalBudget | src/components/pages/Budget.jsx:43 | the sum of the budgeted amounts |
| BudgetPage.TotalSpent | src/components/pages/Budget.jsx:44 | the sum of the actual amounts |
| BudgetPage.Remaining | src/components/pages/Budget.jsx:45 | budget less spending |
| BudgetPage.TotalsAppend | src/components/pages/Budget.jsx:43-45 | the totals and the remaining budget of two lists together are the sums of theirs |
| BudgetPage.Difference | src/components/pages/Budget.jsx:129 | a row's actual less budgeted amount (summed over the rows: `BudgetPage.DifferencesSumToOverspend`) |
| BudgetPage.RemainingCard | src/components/pages/Budget.jsx:94-102 | 'Remaining' exactly when nothing is overspent, else 'Over Budget', with the absolute amount |
| BudgetPage.RemainingCardRecovers | src/components/pages/Budget.jsx:100-102 | the label and the amount together give back the remaining budget |
| BudgetPage.DifferencesSumToOverspend | src/components/pages/Budget.jsx:43-45 | the row differences add up to the overspend, the negated remaining budget |
| BudgetPage.DifferencePrefix | src/components/pages/Budget.jsx:145 | '+' exactly for an overspend |
| BudgetPage.DifferenceColour | src/components/pages/Budget.jsx:143 | error over, success under, gray on budget, each in both directions |
| BudgetPage.PrefixMatchesColour | src/components/pages/Budget.jsx:143-145 | the '+' appears exactly on rows coloured as errors |
| BudgetPage.StatusText | src/components/pages/Budget.jsx:153 | 'Paid' exactly for a paid item, 'Pending' otherwise |
| Dashboard.Percent | src/components/pages/Dashboard.jsx:56 | 0 for an empty whole; otherwise the percentage times the whole is 100 times the part |
| Dashboard.PercentOfPart | src/components/pages/Dashboard.jsx:56 | a part of a whole is between 0 and 100 percent |
| Dashboard.TaskProgress | src/components/pages/Dashboard.jsx:55-56 | between 0 and 100, and 0 with no tasks |
| Dashboard.GuestProgress | src/components/pages/Dashboard.jsx:58-59 | between 0 and 100, and 0 with no guests |
| Dashboard.PaidVendors | src/components/pages/Dashboard.jsx:65 | at most the number of vendors |
| Dashboard.VendorProgress | src/components/pages/Dashboard.jsx:65-66 | between 0 and 100, and 0 with no vendors |
| Dashboard.BudgetProgress | src/components/pages/Dashboard.jsx:61-63 | 0 unless the budget is positive; otherwise the progress times the budget is 100 times the spending |
| Dashboard.BudgetProgressOver | src/components/pages/Dashboard.jsx:61-63 | with a positive budget, progress passes 100 exactly when more is spent than budgeted |
| Dashboard.UpcomingTasks | src/components/pages/Dashboard.jsx:158-160 | the first three incomplete tasks, in order (fewer when fewer exist) |
| Dashboard.ShowsAllCompleted | src/components/pages/Dashboard.jsx:167-169 | the message shows exactly when the card lists nothing, that is when every task is completed |
| Dashboard.RemainingVariant | src/components/pages/Dashboard.jsx:224-226 | success exactly when nothing is overspent, error otherwise |
| Dashboard.RemainingAgreesWithBudgetPage | src/components/pages/Dashboard.jsx:224-226 | the dashboard styles the remaining budget as a success exactly when the Budget page labels it 'Remaining' |
| CountdownTimer.Decompose | src/components/molecules/CountdownTimer.jsx:16-27 | each field in its clock range; all zero once the target is reached; otherwise the fields recompose the difference to the second |
| CountdownTimer.SplitBounds | src/components/molecules/CountdownTimer.jsx:19-22 | the nested remainders are in range and recompose the difference to the second |
| CountdownTimer.FieldsDetermined | src/components/molecules/CountdownTimer.jsx:18-24 | an in-range split matching the difference to the second has each field fixed by the difference, unit after unit |
| CountdownTimer.DecomposeUnique | src/components/molecules/CountdownTimer.jsx:18-24 | any in-range split recomposing the difference is the one shown |
| CountdownTimer.Units | src/components/molecules/CountdownTimer.jsx:33-38 | the four boxes: Days, Hours, Minutes, Seconds, in that order |
| CountdownTimer.Timer.constructor | src/components/molecules/CountdownTimer.jsx:5-10 | the timer starts at zero |
| CountdownTimer.Timer.Tick | src/components/molecules/CountdownTimer.jsx:13-28 | each tick shows the split of target minus now, always in range |

## Left out

- Canvas drawing (background, grid, tables, guest cards, colours, fonts) has no state to state anything about.
- The polar placement of guest cards around a table uses floating-point `cos` and `sin`. Those card origins are an input of the hit test (`CardOrigin`).
- Cursor and table coordinates are whole pixels. Fractional client coordinates are not modelled.
- SeatingChart.CardOrigin: card origins are rounded to whole pixels. In the app a seated guest's card origin is `table.x + table.width/2 + Math.cos(angle)*radius - 60` (and the same with `sin` for y), usually fractional. So a card at a fractional origin is hit one pixel wider here, and one pixel taller: 121 columns by 41 rows, where the app's integer cursor hits 120 by 40.
- SeatingChartService.Normalised: the unassigned guests are a list of records or absent. `[...(chartData.unassignedGuests || [])]` also accepts any other truthy value: it splits a string into its characters and throws on a number. Neither is modelled.
- jsPDF (`addImage`, `addPage`, fonts, `save`), the title text and `toDataURL` are not modelled. The export takes the canvas state and the data URL as inputs and yields the roster lines.
- Toast messages, `console.error` and the loading flag are not modelled. Neither are `async`/`await`, the service delays or the window resize listener.
- `Promise.all` in `loadData` is a parameter, `View.Load`'s `fetched`.
- Dates are integer milliseconds. Parsing dates with `new Date` and formatting with `toLocaleString` are not modelled.
- Money amounts are integers.
- Records.ToJsString: record numbers (Ids, table numbers, and the results of `parseInt` and `Math.max`) are unbounded integers printed in plain decimal. JavaScript prints magnitudes from 10^21 in exponent form (so `parseInt(1e21)` is 1), rounds integers past 2^53, and has fractions and -0; none of these is modelled.
- Records.StringToNumber: reads the empty string, signed decimal integers and `0x` hexadecimal only. `Number` also reads `0b` binary, `0o` octal, `Infinity`, fractions and exponents; here those are `NaN`. `Records.ToNumber` inherits this.
- GuestTable.FilteredGuests: `Text.Lower` folds the ASCII letters A-Z only, while `toLowerCase` folds every Unicode letter. A term or name with non-ASCII capitals may match in the app and not here.
- Page handlers do not call the services. Whether the store call succeeds is a boolean parameter.
- The mock-data fixtures are not part of this model. Stores take their seed as a constructor argument.
- ListStore.Store.Create: requires a non-empty store whose Ids are all numbers. On an empty store `Math.max()` is `-Infinity`, which the value model has no number for.
- Sorting.Sort: stability (equal elements keep their input order) is not proved. Only permutation and sortedness are.
- TaskList.SortedTasksOrder: assumes every priority is High, Medium or Low. Otherwise the comparator gives `NaN` and is not a consistent ordering (`TaskList.UnknownPriorityTies`).
- SeatingChart.ItemAt: the hit test the page uses here is the corrected one (see Findings). `SeatingChart.ItemAtAsWritten` keeps the code's behaviour.
- SeatingChart.View.MouseDown: uses the corrected hit test. A press on an unassigned guest's card, clear of the tables and of the assigned guests' cards, therefore starts a drag here, and the next mouse-up saves the chart. `handleMouseDown` (src/components/pages/SeatingChart.jsx:210-221) does neither for that press. Everywhere else the two agree (`SeatingChart.AsWrittenAgreesOffGrid`).
- Navigation, the Timeline page wrapper and the other context components are not part of this model.

## Findings

| source | as written | input that shows it | evidently intended | confidence | as-written member | corrected member |
|---|---|---|---|---|---|---|
| src/components/pages/SeatingChart.jsx:183-189 | the `return` inside the `forEach` callback leaves only the callback, so `getItemAtPosition` never returns an unassigned guest | no tables, one unassigned guest, a press at (30, 30) inside its card: the function returns null | pressing an unassigned guest's card selects that guest | high, not executed | SeatingChart.ItemAtAsWritten, SeatingChart.UnassignedClickExample, SeatingChart.AsWrittenMissesUnassigned | SeatingChart.ItemAt, SeatingChart.UnassignedGuestSelected |
