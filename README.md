# Project dashboard data reconciliation, in Dafny

This project models the data-handling core of a project-management
dashboard. The dashboard reads spreadsheet rows from a script endpoint and
turns them into three views:

- the **party list**: the parties found across all stages, each with the stages it appears in;
- the **stage list** of a selected party: per stage, its rows and how many of them are complete;
- the **task table** of a selected stage: its rows turned into task records, grouped by category, with filters and suggestion lists.

A small navigation state machine moves between the three views, with a
Back button and a breadcrumb.

The model follows JavaScript's semantics where the code depends on them:

- truthiness and `a || b` chains;
- `Object.values(row)[i]` next to `row[key]`;
- `trim`, ASCII case conversion, `includes`;
- the default string order of `sort()`, modelled by code point (see ## Left out), and a stable sort;
- template literals of `undefined`;
- the `TypeError` a method call on an inherited `Object.prototype` member throws.

Modules, one per file:

- `Strings` (strings.dfy): trim, case, containment, string order, decimal digits.
- `Lists` (lists.dfy): filter, map, flatten, first-seen de-duplication, insertion sort.
- `Sheet` (sheet.dfy): cells, rows, truthiness, field lookup, `col_N` keys, results.
- `TaskTable` (task_table.dfy): components/task-table.jsx.
- `StageTable` (stage_table.dfy): components/stage-table.jsx.
- `PartyStagesTable` (party_stages_table.dfy): components/party-stages-table.jsx, the second stage-list variant.
- `PartyTable` (party_table.dfy): components/party-table.jsx.
- `TaskPage` (task_page.dfy): components/task-page.jsx.

A row is a sequence of `(key, Cell)` pairs, so both `row[key]` and
`Object.values(row)[i]` can be read from it. A `Cell` is `Null` (null or
undefined), a string, an integer or a boolean. Each network request is a
parameter: a function from the request's argument to a `Result`.

Where the code loops, the model is a method with the same loop. Each such
method is proved equal to a specification function, and the properties are
proved about that function. The page component is a class whose three fields
its handlers update. `Page.State()` reads the fields as a value, and every
handler is proved to make the step of the pure transition function `Step`.

## Model

| member | source | states |
|---|---|---|
| TaskTable.IsHorizontalCategoryStage | components/task-table.jsx:50-60 | computes whether the lower-cased stage name contains, or is contained in, one of the three lower-cased fixed stage names |
| TaskTable.EmptyStageIsHorizontal | components/task-table.jsx:50-60 | the empty stage name is classified horizontal, because every fixed name contains it |
| TaskTable.HorizontalIgnoresCase | components/task-table.jsx:56-59 | the classification ignores letter case: upper- or lower-casing the stage name does not change it |
| TaskTable.PartOfFixedNameIsHorizontal | components/task-table.jsx:56-59 | every slice of one of the three fixed names is classified horizontal |
| TaskTable.ExtendedFixedNameIsHorizontal | components/task-table.jsx:56-59 | every stage name that has a fixed name inside it is classified horizontal |
| TaskTable.ColumnLetters | components/task-table.jsx:63-72 | the letters are empty exactly for a negative index, and are capital letters otherwise |
| TaskTable.GetColumnLetter | components/task-table.jsx:63-72 | the `while` loop with its `break` returns the bijective base-26 letters of the index |
| TaskTable.ColumnLettersRoundTrip | components/task-table.jsx:63-72 | reading the letters of column n back as a base-26 numeral gives n + 1 |
| TaskTable.ColumnLettersOnto | components/task-table.jsx:63-72 | every non-empty string of capital letters is the letters of exactly one column |
| TaskTable.ColumnLettersInjective | components/task-table.jsx:63-72 | distinct non-negative columns get distinct letters |
| TaskTable.ColumnLettersExamples | components/task-table.jsx:63-72 | column 0 is "A", 25 is "Z", 26 is "AA", and -1 gives "" |
| TaskTable.SlotOf | components/task-table.jsx:108-109 | a header slot is falsy exactly when `headerRow[col_N]` is falsy; otherwise it holds the trimmed text |
| TaskTable.CategoryNameRedundantTests | components/task-table.jsx:112 | the name test equals "longer than one character and not N/A": the emptiness and "-" tests are implied |
| TaskTable.StopsAtCount | components/task-table.jsx:125-136 | at a falsy slot, the inner count reaches 3 exactly when that slot and the next two grid slots, up to column 200, are empty |
| TaskTable.GridColumn | components/task-table.jsx:105 | the grid starts at column 5, and its 40 positions are exactly the columns up to 200 |
| TaskTable.CountEmptyAhead | components/task-table.jsx:125-130 | the inner loop counts the empty slots among the slot and the two after it, not past column 200 |
| TaskTable.ScanCategories | components/task-table.jsx:97-141 | the discovery loop, with its `break`, returns the categories of the header-row scan |
| TaskTable.StoppedStays | components/task-table.jsx:133-136 | once the scan has stopped, later columns change nothing |
| TaskTable.ScanStopped | components/task-table.jsx:123-136 | the scan has stopped exactly when the stop test held at some visited grid position |
| TaskTable.CategoryFound | components/task-table.jsx:105-140 | a category is found iff its column is a grid position whose trimmed slot text is its name, the name passes the test, and no stop came earlier |
| TaskTable.CategoriesAscending | components/task-table.jsx:105-117 | the columns found ascend strictly, start at 5, and lie below the next grid position |
| TaskTable.CategoryNamesTrimmed | components/task-table.jsx:109 | discovered category names are trimmed |
| TaskTable.BlankSlotSkipped | components/task-table.jsx:108-121 | a truthy slot that is blank once trimmed is skipped without the stop check |
| TaskTable.CleanValue | components/task-table.jsx:202-206 | the result is None iff the value is falsy, exactly "-", or all white space; otherwise it is the trimmed text, which is non-empty and trimmed |
| TaskTable.CleanValueSpacedDash | components/task-table.jsx:203-205 | " - " is not dropped: it cleans to "-" |
| TaskTable.CleanValueStable | components/task-table.jsx:202-206 | cleaning a cleaned text again gives the same text, unless it is "-" |
| TaskTable.MatchesParty | components/task-table.jsx:157-161 | the row test is the horizontal party-row predicate: `col_2` trimmed is non-empty and equals the party name up to case |
| TaskTable.SelectPartyRows | components/task-table.jsx:151-165 | the row loop returns the matching rows from index 5 on, in order |
| TaskTable.PartyRowsSpec | components/task-table.jsx:153-165 | the party rows form a subsequence of the data rows from index 5 on; a row is among them iff it sits at index 5 or later and matches |
| TaskTable.CategoryTask | components/task-table.jsx:216-225 | an emitted task has id `${partyIndex}-${categoryIndex}`, the category's name and, as its column order, the category's column |
| TaskTable.CategoryTaskSpec | components/task-table.jsx:184-225 | a task is emitted iff the cleaned name and one of the cleaned planned, actual or status values exist; it holds those cleaned values, with status "Pending" and delay "0" by default |
| TaskTable.CategoryTaskPresent | components/task-table.jsx:208-215 | the emission condition of the task, in terms of the row's cleaned `col_N` values |
| TaskTable.CategoryTaskFields | components/task-table.jsx:216-225 | the fields of an emitted task, in terms of the row's cleaned `col_N` values |
| TaskTable.ReadTask | components/task-table.jsx:184-231 | the `forEach` body computes the category's task, if any |
| TaskTable.BuildRowTasks | components/task-table.jsx:180-232 | the inner `forEach` pushes the row's tasks category by category |
| TaskTable.BuildHorizontalTasks | components/task-table.jsx:174-236 | the outer `forEach` pushes every party row's tasks, row-major and category-minor |
| TaskTable.FetchHorizontalTasks | components/task-table.jsx:75-237 | the horizontal extraction with its three early returns computes the horizontal task list |
| TaskTable.RowTasksOrigin | components/task-table.jsx:180-232 | a task is among a row's tasks iff some category of the row gives it |
| TaskTable.RowTasksIds | components/task-table.jsx:217 | a row's tasks all carry that row's index, and their category positions ascend |
| TaskTable.HorizontalTasksOrigin | components/task-table.jsx:176-233 | a task is extracted iff some party row and some category give it |
| TaskTable.HorizontalTasksOrdered | components/task-table.jsx:176-233 | the ids are in range and strictly ascending, row first and then category, so they are distinct |
| TaskTable.HorizontalTasksHaveColumns | components/task-table.jsx:218-224 | every horizontal task carries the column and name of a discovered category |
| TaskTable.Field | components/task-table.jsx:278-291 | a field is the first truthy named key, else the positional value when truthy, else null |
| TaskTable.DefaultName | components/task-table.jsx:302 | "Task {i+1}" is non-empty and trimmed |
| TaskTable.RegularTask | components/task-table.jsx:275-308 | the id is index + 1; category, name, status and delay are non-empty and trimmed; planned and actual are the cleaned fields |
| TaskTable.RegularTasks | components/task-table.jsx:240-311 | one task per party row chosen by the stage table's test, and the task of the i-th such row has id i + 1 |
| TaskTable.RegularTasksSpec | components/task-table.jsx:244-308 | ids are 1..n; there are as many tasks as matching rows; the rows form a subsequence; a row is chosen iff it matches |
| TaskTable.RegularTaskDefaults | components/task-table.jsx:299-307 | a row with no usable value gets "General", "Task {i+1}", "Pending", no dates and delay "0" |
| TaskTable.EmptyRowField | components/task-table.jsx:278-291 | an empty row has no field value to clean |
| TaskTable.RegularTaskPrefersNamedKeys | components/task-table.jsx:278-286 | a truthy `DraftCategory` wins over the positional fallback |
| TaskTable.CategoriesOf | components/task-table.jsx:340-347 | the keys of `groupedTasks` are distinct |
| TaskTable.GroupOf | components/task-table.jsx:340-347 | a group holds only tasks of its category |
| TaskTable.CategoryOrderStrict | components/task-table.jsx:354-384 | both group orders are strict orders |
| TaskTable.SortedCategories | components/task-table.jsx:354-384 | the sorted keys are distinct |
| TaskTable.Block | components/task-table.jsx:373-380 | a block has one entry per task of its group |
| TaskTable.CategoriesOfStep | components/task-table.jsx:342-345 | one more task adds its category to the keys exactly when it is new |
| TaskTable.CategoriesOfMember | components/task-table.jsx:340-347 | a category is a key iff some task has it; a category that is not a key has no tasks |
| TaskTable.GroupOfStep | components/task-table.jsx:346 | one more task extends its own category's group and no other |
| TaskTable.CollectStep | components/task-table.jsx:341-347 | one iteration of the first loop keeps "keys are the categories so far, each holding its group" |
| TaskTable.CollectGroups | components/task-table.jsx:340-347 | the first loop builds the keys in first-seen order, each holding its category's tasks in order |
| TaskTable.PushBlock | components/task-table.jsx:373-380 | the inner loop appends the block of the category |
| TaskTable.PushBlocks | components/task-table.jsx:370-395 | the outer loop appends the blocks of the sorted categories, in order |
| TaskTable.GroupTasks | components/task-table.jsx:339-396 | the grouping loops, on a map that has no inherited members, compute the grouped list |
| TaskTable.PositionOf | components/task-table.jsx:354 | in a list of distinct keys, the position of the key at p is p |
| TaskTable.BlocksKeyed | components/task-table.jsx:373-380 | each block's entries have the block's category, and only the first is marked |
| TaskTable.GroupedEntry | components/task-table.jsx:373-393 | each entry is an extracted task; its count is its group's size; its display category is set exactly when it is marked |
| TaskTable.GroupedMarks | components/task-table.jsx:376-392 | exactly the first entry of each run of one category is marked, and it carries the category; every entry carries its group's size |
| TaskTable.GroupedPositions | components/task-table.jsx:370-381 | each entry's category is among the sorted keys, and the positions never decrease along the list |
| TaskTable.GroupedOrder | components/task-table.jsx:354-384 | no entry comes after one whose category sorts after its own |
| TaskTable.OrderFromPositions | components/task-table.jsx:370-381 | entries at non-decreasing positions of a sorted key list are in the sort's order |
| TaskTable.GroupedContiguous | components/task-table.jsx:370-395 | each category's entries are contiguous |
| TaskTable.ContiguousFromPositions | components/task-table.jsx:370-395 | entries at non-decreasing key positions keep each category together |
| TaskTable.RegularGroupsAscending | components/task-table.jsx:384 | for a regular stage the groups come in strictly ascending order of category name |
| TaskTable.BlockTasks | components/task-table.jsx:373-380 | without its marks, a block is its group |
| TaskTable.GroupedTasks | components/task-table.jsx:370-395 | without the marks, the grouped list is the groups one after another, in the sorted order |
| TaskTable.FilterGroups | components/task-table.jsx:370-395 | filtering the concatenated groups for one category leaves only that category's group |
| TaskTable.OnlyGroupFlatten | components/task-table.jsx:340-347 | over distinct keys that are exactly the tasks' categories, keeping only one category's blocks leaves that category's group |
| TaskTable.GroupedKeepsGroups | components/task-table.jsx:339-396 | the grouped list holds each category's tasks in their original relative order |
| TaskTable.GroupedPermutation | components/task-table.jsx:339-396 | the grouped list is a permutation of the extracted tasks |
| Sheet.Lookup | components/task-table.jsx:343 | a property read on a plain object finds an own entry iff the key was set, with its value, and an inherited member iff it was not set and the prototype has the key |
| TaskTable.GroupIntoAsWritten | components/task-table.jsx:340-347 | computes the grouping loop on a plain object whose inherited members are the `Object.prototype` names: the groups, or the `push` TypeError |
| TaskTable.GroupIntoKeys | components/task-table.jsx:340-347 | when the loop as written does not throw, it has a key for exactly the categories of the tasks |
| TaskTable.GroupIntoValues | components/task-table.jsx:340-347 | when the loop as written does not throw, each key holds its category's tasks in order |
| TaskTable.GroupIntoFails | components/task-table.jsx:343-346 | the loop as written throws iff some task's category is an inherited member's name |
| TaskTable.GroupIntoError | components/task-table.jsx:346 | the only error the loop as written raises is the `push` TypeError |
| TaskTable.GroupIntoAsWrittenSpec | components/task-table.jsx:340-347 | on a plain object the loop throws the `push` TypeError iff some category is an `Object.prototype` member name; otherwise it builds the corrected groups |
| TaskTable.ConstructorCategoryBreaksGrouping | components/task-table.jsx:340-347 | a single task of category "constructor" makes the grouping as written throw |
| TaskTable.ConstructorCategoryGroupedCorrectly | components/task-table.jsx:339-396 | the corrected grouping gives that task as one marked entry of a group of one |
| TaskTable.NameError | components/task-table.jsx:57 | computes the message of the `toLowerCase` TypeError for a stage name that is missing, null, or not a string |
| TaskTable.ExtractedTasks | components/task-table.jsx:332-337 | computes the horizontal tasks when the stage name is classified horizontal, else the regular tasks |
| TaskTable.FetchTasks | components/task-table.jsx:314-406 | without a party or stage the list is emptied; a failed request, a non-string stage name, or a category named after an `Object.prototype` member keeps the list and shows the error; otherwise the list is the grouped list of the extracted tasks (so group order, contiguity and first-in-group marks hold for it), a permutation of them that keeps each category's order |
| TaskTable.FilteredTasks | components/task-table.jsx:448-460 | a task is kept iff all three filter conditions hold |
| TaskTable.FilteredTasksSubsequence | components/task-table.jsx:448-460 | the filtered list is a subsequence of the list |
| TaskTable.FilteredTasksUnfiltered | components/task-table.jsx:450-456 | with all three filters empty the list is unchanged |
| TaskTable.FilteredTasksIdempotent | components/task-table.jsx:448-460 | filtering twice with the same filters changes nothing |
| TaskTable.TextFiltersAreSubstringTests | components/task-table.jsx:450-454 | the `=== ''` tests of the text filters only short-cut plain substring tests |
| TaskTable.UniqueSorted | components/task-table.jsx:414-429 | the result holds exactly the values present, in strictly ascending order, hence without duplicates |
| TaskTable.UniqueDraftCategories | components/task-table.jsx:414-417 | exactly the categories of the tasks, strictly ascending |
| TaskTable.UniqueTaskNames | components/task-table.jsx:420-423 | exactly the names of the tasks, strictly ascending |
| TaskTable.UniqueStatuses | components/task-table.jsx:426-429 | exactly the statuses of the tasks, strictly ascending |
| TaskTable.FilteredOptions | components/task-table.jsx:432-445 | a suggestion is kept iff it contains the filter text ignoring case; all are kept for an empty filter |
| TaskTable.FilteredOptionsSubsequence | components/task-table.jsx:432-445 | the suggestions keep the order of the options |
| TaskTable.StatusColor | components/task-table.jsx:471-483 | the colour is one of the four; green iff a completion word occurs; blue iff no completion word but a progress word occurs; yellow iff only a pending word occurs; grey iff no word of any group occurs |
| TaskTable.StatusColorIgnoresCase | components/task-table.jsx:472 | the colour does not depend on letter case |
| TaskTable.SameLowerSameColor | components/task-table.jsx:472 | statuses with the same lower-cased text get the same colour |
| TaskTable.StatusColorCompletedExtends | components/task-table.jsx:474 | text around a green status keeps it green |
| TaskTable.PendingMarksOnly | components/task-table.jsx:474-478 | "pending" mentions a pending word and no completion or progress word |
| TaskTable.DefaultStatusColor | components/task-table.jsx:471-483 | the default status "Pending" is shown yellow |
| StageTable.PartyNameOf | components/stage-table.jsx:64-88 | the resolved party name is truthy or null |
| StageTable.ResolvePartyName | components/stage-table.jsx:64-88 | the chain with its header loop and `break` yields the first truthy of PartyName, the five header variants, then the third value |
| StageTable.PartyTasks | components/stage-table.jsx:63-103 | a row is kept iff it is in the stage and its party name, trimmed and upper-cased, equals the party's name trimmed and upper-cased |
| StageTable.PartyTasksSubsequence | components/stage-table.jsx:63 | the party's rows keep the stage's row order |
| StageTable.IsPartyTaskNormalised | components/stage-table.jsx:91-92 | case and surrounding spaces of the party's name do not matter |
| StageTable.UpperTrimCommute | components/stage-table.jsx:92 | upper-casing a trimmed string leaves it trimmed |
| StageTable.StatusOfSpec | components/stage-table.jsx:113-130 | the status is Status, Azure Status, status, then the 11th value, whichever is truthy first; otherwise null |
| StageTable.IsCompletedStatus | components/stage-table.jsx:132-143 | computes whether the status is truthy and, as lower-cased and trimmed text, one of the seven completion words |
| StageTable.CompletedCount | components/stage-table.jsx:112-144 | the count is the number of rows with a completion status, at most the number of rows |
| StageTable.CountCompleted | components/stage-table.jsx:109-144 | the `forEach` with `completedTasks++` computes that count |
| StageTable.Progress | components/stage-table.jsx:146 | progress lies in 0..100; it is 0 for no tasks; it is 100 iff all tasks are complete; it is 0 iff none are |
| StageTable.StageResult | components/stage-table.jsx:56-169 | the id is index + 1; completed ≤ total = number of party rows; a failure gives a zero record with the error; a success holds the party's rows |
| StageTable.FetchPartyStages | components/stage-table.jsx:42-174 | no party or no stages gives an empty list; otherwise there is one record per stage |
| StageTable.FetchPartyStagesIndependent | components/stage-table.jsx:56-170 | each record depends only on its own stage's response and sits at its position; a failure gives the zero record with the message |
| StageTable.StageResultCounts | components/stage-table.jsx:63-146 | total is the number of matching rows, completed the number of those complete, progress their ratio, and the rows form a subsequence |
| StageTable.HandleAction | components/stage-table.jsx:194-203 | the selection is the stage with `detailedData` and `tasks` both equal to its party rows |
| StageTable.HandleActionPartyRows | components/stage-table.jsx:194-203 | every row passed on belongs to the selected party |
| PartyStagesTable.PartyNameOf | components/party-stages-table.jsx:60-77 | the resolved party name is truthy or null |
| PartyStagesTable.ResolvePartyName | components/party-stages-table.jsx:60-77 | the lookup yields the third value if truthy, else the first truthy of the six header variants |
| PartyStagesTable.PartyTasks | components/party-stages-table.jsx:58-80 | a row is kept iff it is in the stage and its party name, trimmed, equals the party's name exactly |
| PartyStagesTable.UntrimmedNameMatchesNothing | components/party-stages-table.jsx:79 | a party name with surrounding spaces matches no row |
| PartyStagesTable.ResolutionOrderDiffers | components/party-stages-table.jsx:62-77 | the two lookups disagree: a row with PartyName "North" and third value "South" belongs to North in the stage table and to South here |
| PartyStagesTable.StatusOf | components/party-stages-table.jsx:89-97 | the status is truthy or null |
| PartyStagesTable.IsCompletedStatus | components/party-stages-table.jsx:99-112 | computes whether the status is truthy and, as lower-cased and trimmed text, one of the nine completion words |
| PartyStagesTable.ResolveStatus | components/party-stages-table.jsx:89-97 | the loop with its `break` yields the first truthy of the eleven status fields, with no positional fallback |
| PartyStagesTable.CompletionWordsExtend | components/party-stages-table.jsx:99-112 | every status the stage table counts complete is counted complete here too |
| PartyStagesTable.TrueCountsOnlyHere | components/party-stages-table.jsx:108-109 | the status `true` counts complete here but not in the stage table |
| PartyStagesTable.CompletedCount | components/party-stages-table.jsx:87-113 | the count is the number of rows with a completion status, at most the number of rows |
| PartyStagesTable.CountCompleted | components/party-stages-table.jsx:84-113 | the `forEach` with `completedTasks++` computes that count |
| PartyStagesTable.StageResult | components/party-stages-table.jsx:53-135 | the id is index + 1; completed ≤ total = number of party rows; progress is 0 for no tasks; a failure gives an all-zero record; a success holds the party's rows |
| PartyStagesTable.FetchPartyStages | components/party-stages-table.jsx:42-139 | no party or no stages gives an empty list; otherwise there is one record per stage |
| PartyStagesTable.FetchPartyStagesIndependent | components/party-stages-table.jsx:53-136 | each record depends only on its own stage's response and sits at its position |
| PartyStagesTable.StageResultCounts | components/party-stages-table.jsx:58-113 | total is the number of matching rows, completed the number of those complete, and the rows form a subsequence |
| PartyStagesTable.HandleStageSelect | components/party-stages-table.jsx:154-163 | the selection passes the stage with the party's name and id, and `tasks` equal to its party rows |
| PartyStagesTable.HandleStageSelectPartyRows | components/party-stages-table.jsx:154-163 | every row passed on belongs to the selected party |
| PartyTable.FirstStringKey | components/party-table.jsx:87 | the fourth alternative is a string or nothing |
| PartyTable.FirstStringValue | components/party-table.jsx:88 | the fifth alternative is a string or nothing |
| PartyTable.StageNameAsWritten | components/party-table.jsx:84-89 | the stage name as written is always truthy |
| PartyTable.StageNameOf | components/party-table.jsx:84-89 | the chain with the fourth alternative reading the field's value is always truthy; the aggregation uses the chain as written |
| PartyTable.StageNameReadsKey | components/party-table.jsx:87 | an entry naming itself only in a `title` field is called "title" as written, and "Foundation" when corrected |
| PartyTable.StageNamesAgree | components/party-table.jsx:84-86 | both chains agree when name, Stage Name or Stage is truthy |
| PartyTable.ColumnCName | components/party-table.jsx:99-108 | method 1 yields a non-empty trimmed name that is not "party name" in any case |
| PartyTable.HeaderValue | components/party-table.jsx:114-117 | a header value taken is non-empty, trimmed and not "party name" |
| PartyTable.HeaderName | components/party-table.jsx:111-122 | method 2 yields the value of some header, and nothing exactly when no header qualifies |
| PartyTable.PartyNameOfRow | components/party-table.jsx:96-122 | the extracted name is non-empty, trimmed and not "party name" |
| PartyTable.ExtractPartyName | components/party-table.jsx:96-122 | the extraction with its header loop and `break` is method 1, else method 2 |
| PartyTable.AcceptanceIsDateTest | components/party-table.jsx:126-130 | for an extracted name, the acceptance test comes down to the date test |
| PartyTable.AcceptedName | components/party-table.jsx:126-132 | a contributed name is non-empty, trimmed, not "party name" and not date-like; one is contributed iff a name is extracted and accepted |
| PartyTable.DatePrefix | components/party-table.jsx:130 | computes whether the text starts with one or two digits, "/", one or two digits, "/" and four digits |
| PartyTable.DateIsNoParty | components/party-table.jsx:130 | a row whose third value is a date, and that has no string header value, contributes no party |
| PartyTable.PartiesOfSighted | components/party-table.jsx:133 | a name is among the parties iff some row sights it |
| PartyTable.StagesOfSnoc | components/party-table.jsx:136-141 | one more sighting adds its stage to its own party's stages once |
| PartyTable.UnsightedStages | components/party-table.jsx:136-141 | a name that is never sighted has no stages |
| PartyTable.TallyStep | components/party-table.jsx:133-141 | adding one sighting to the tally of the sightings so far gives the tally of the longer list |
| PartyTable.TallyRow | components/party-table.jsx:95-142 | one row adds its accepted name, if any, with the stage, to the Set and the mapping |
| PartyTable.TallyStage | components/party-table.jsx:91-143 | the row loop, which skips row 0, extends the tally by the stage's sightings |
| PartyTable.StageStep | components/party-table.jsx:91-143 | row `index` adds its sighting unless it is the header row or has no accepted name |
| PartyTable.AggregateParties | components/party-table.jsx:78-153 | the fallback aggregation loops, on a mapping that has no inherited members, compute the fallback party list |
| PartyTable.TallyOf | components/party-table.jsx:133-141 | computes the intended tally: the names in first-seen order, each with its distinct stages in first-seen order |
| PartyTable.TallyKeys | components/party-table.jsx:136-138 | the mapping has an entry for exactly the sighted names |
| PartyTable.Records | components/party-table.jsx:148-153 | one record per name of the tally, so as many records as names |
| PartyTable.FallbackParties | components/party-table.jsx:147-153 | computes the records of the tally of all the stages' sightings |
| PartyTable.FallbackPartiesNumbered | components/party-table.jsx:148-153 | names are pairwise distinct, ids are 1..n, and totalProjects is the number of stages |
| PartyTable.RecordsNumbered | components/party-table.jsx:148-153 | records of distinct names are numbered from 1 and count their stages |
| PartyTable.ListedRecords | components/party-table.jsx:148-153 | a name has a record iff it is in the Set |
| PartyTable.FallbackPartiesListed | components/party-table.jsx:78-153 | a name is listed iff some stage row sights it |
| PartyTable.StagesOfSpec | components/party-table.jsx:136-141 | a party's stages are distinct and are exactly the stages it is sighted in |
| PartyTable.RecordOfTally | components/party-table.jsx:148-153 | the record at i is the i-th name, numbered i + 1, with its stages |
| PartyTable.FallbackPartiesStages | components/party-table.jsx:136-152 | each party's stagesPresent has no duplicates, holds exactly the stages it is sighted in, and lists them in the order they were first sighted |
| PartyTable.FallbackPartiesOrder | components/party-table.jsx:133-148 | parties are listed in the order their names are first sighted |
| PartyTable.StageSightingsOrigin | components/party-table.jsx:82-143 | an entry's sightings come from rows after row 0 with an accepted name, under the entry's stage name as written; an entry without a row array gives none |
| PartyTable.SightingsOrigin | components/party-table.jsx:81-145 | the sightings are those of the stage entries |
| PartyTable.AddSightingToAgrees | components/party-table.jsx:136-141 | where one step as written does not throw, it is the corrected step |
| PartyTable.TallyIntoAgrees | components/party-table.jsx:133-141 | when the loop as written does not throw, it builds the corrected tally |
| PartyTable.TallyIntoKeys | components/party-table.jsx:136-138 | when the loop as written does not throw, its mapping has exactly the sighted names as keys |
| PartyTable.TallyIntoFails | components/party-table.jsx:136-140 | the loop as written throws iff some sighted name is an inherited member's name |
| PartyTable.TallyAsWritten | components/party-table.jsx:133-141 | computes the tally loop on a plain object whose inherited members are the `Object.prototype` names: the tally, or the `add` TypeError |
| PartyTable.TallyIntoError | components/party-table.jsx:140 | the only error the loop as written raises is the `add` TypeError |
| PartyTable.TallyAsWrittenSpec | components/party-table.jsx:79-141 | on a plain object it throws the `add` TypeError iff some party name is an `Object.prototype` member name; otherwise it is the corrected tally |
| PartyTable.ConstructorPartyBreaksFallback | components/party-table.jsx:136-140 | a party named "constructor" makes the fallback throw as written, while the corrected tally lists it |
| PartyTable.FetchAllParties | components/party-table.jsx:48-168 | a non-empty primary list is shown as it is; otherwise a failing fallback request, or a party named after an `Object.prototype` member, keeps the list and shows the error, and any other fallback shows the aggregated list |
| PartyTable.PrimaryVerbatim | components/party-table.jsx:60-64 | a non-empty primary list is shown unchanged, without sorting |
| PartyTable.PrimaryFailureFallsBack | components/party-table.jsx:56-70 | a failing primary request ends as an empty primary list does: with the fallback |
| TaskPage.InitialConsistent | components/task-page.jsx:11-13 | the initial state shows the party list with nothing selected, and is consistent |
| TaskPage.Step | components/task-page.jsx:16-38 | computes the handlers' transitions: a party selection opens its stages and clears the stage, a stage selection opens its tasks, Back goes up one view and clears what it leaves |
| TaskPage.ShowsBack | components/task-page.jsx:65 | computes whether the Back button is shown: in every view but the party list |
| TaskPage.StepConsistent | components/task-page.jsx:16-38 | every handler keeps "no stage outside the tasks view, no party in the party list" |
| TaskPage.RunConsistent | components/task-page.jsx:11-38 | that invariant holds after any sequence of actions |
| TaskPage.StepNavigated | components/task-page.jsx:16-65 | an action offered by the rendered view keeps "the stages view has a party; the tasks view a party and a stage" |
| TaskPage.RunNavigated | components/task-page.jsx:11-65 | that holds after any sequence of offered actions |
| TaskPage.StageWithoutParty | components/task-page.jsx:23-26 | the handler itself does not require a party: selecting a stage from the party list reaches the tasks view without one |
| TaskPage.BackUndoesSelectStage | components/task-page.jsx:23-32 | Back after selecting a stage in the stages view returns to the same state |
| TaskPage.BackUndoesSelectParty | components/task-page.jsx:16-36 | Back after selecting a party returns to the initial state |
| TaskPage.BackTwiceReachesParties | components/task-page.jsx:29-38 | from any consistent state, Back twice reaches the initial state |
| TaskPage.Breadcrumb | components/task-page.jsx:41-46 | computes the breadcrumb text: "All Parties", "{party} > Stages" or "{party} > {stage} > Tasks", with "undefined" where nothing is selected |
| TaskPage.BreadcrumbShowsView | components/task-page.jsx:41-46 | the breadcrumb ends in " > Tasks" iff in the tasks view, in " > Stages" iff in the stages view, and is "All Parties" iff in the party list |
| TaskPage.BreadcrumbNamesParty | components/task-page.jsx:43-44 | outside the party list, once navigated, the breadcrumb starts with the party's name |
| TaskPage.Page.constructor | components/task-page.jsx:11-13 | the page starts in the initial state |
| TaskPage.Page.HandlePartyAction | components/task-page.jsx:16-20 | the party is set, the stage cleared and the stages view shown, and the state is consistent afterwards |
| TaskPage.Page.HandleStageAction | components/task-page.jsx:23-26 | the stage is set and the tasks view shown, with the party unchanged, and the state is consistent afterwards |
| TaskPage.Page.HandleBack | components/task-page.jsx:29-38 | the state makes the Back step and stays consistent when it was |

## Left out

- Network requests, `FormData`, JSON decoding and the `success` flag of responses are left out. Each request is a parameter that returns a `Result`.
- `Promise.all` over the stages is modelled as a sequential map. The records are independent of each other, so order of completion does not matter.
- React state, effects, the `mounted` hydration guard, loading flags, JSX rendering, dropdown visibility and the mousedown listener are left out. They are UI only. The Back button's visibility (components/task-page.jsx:65) is modelled as the predicate `ShowsBack`.
- `console.log` and `console.error` are left out.
- `formatDate` and `formatDelay` are left out. They are locale-dependent date parsing and floating-point parsing.
- `handlePartySelect` of the party list (components/party-table.jsx:178-186) is left out. It only spreads the party into a new object with `availableStages`, and it is not among the modelled operations.
- StageTable.Progress: the exact ratio is modelled. The `Math.round(x * 10) / 10` rounding and `toFixed` are floating point and are left out, so both "100 iff all complete" and "0 iff none complete" hold for the unrounded value only: with 1 of 2001 rows complete, the rounded value is 0, and with 2000 of 2001 it is 100.
- PartyStagesTable.StageResult: progress is the same exact ratio, with no rounding.
- `toLowerCase` and `toUpperCase` are ASCII only. Non-ASCII letters are left unchanged, since there is no Unicode case mapping in the model.
- `a.localeCompare(b)` in the horizontal group sort is not modelled. It is unreachable, because every horizontal task carries `columnOrder` (`TaskTable.HorizontalTasksHaveColumns`). `FirstColumn` defaults to 0 only for a category without tasks, which never occurs.
- Sorting is a stable insertion sort. `Array.prototype.sort` is stable, so only the resulting order is claimed.
- Numbers in cells are integers. Fractional numbers and their `toString` are left out.
- A cell holding an object or array is not modelled. Cells are null, strings, integers or booleans.
- The key order of `Object.values` is taken to be the order of the row's pairs. Integer-like keys, which JavaScript lists first, are not reordered.
- `getBreadcrumb`'s final `return ""` is unreachable, because the view is one of three values.
- `${x}` of a party whose name is not a string is not modelled. Party names are strings.
- The stage-name TypeError in `fetchTasks` is modelled only as its message. `NameError` raises it for a non-string or missing stage name, before any grouping.
- TaskTable.NameError: `Null` merges a missing and a `null` stage name, so the message is always the one for `undefined`. For `null` the runtime says "of null" instead.
- Strings are sequences of code points, while JavaScript strings are UTF-16. A single character above U+FFFF has length 1 here but `.length` 2 in JavaScript. Such a header is a category for `categoryName.length > 1` (components/task-table.jsx:112) but not for `TaskTable.IsCategoryName`.
- `Strings.LexLess` compares code points, while `sort()` compares UTF-16 code units. Strings with characters above U+FFFF can therefore sort differently against characters in U+E000 to U+FFFF (components/task-table.jsx:384, 416, 422, 428).
- TaskTable.GroupTasks: the loops are modelled on a map without inherited members, so the method never throws. The `push` TypeError of the object as written is modelled by `TaskTable.GroupIntoAsWritten`, and `TaskTable.FetchTasks` takes its error branch.
- PartyTable.AggregateParties: the loops are modelled on a mapping without inherited members, so the method never throws. The `add` TypeError of the object as written is modelled by `PartyTable.TallyAsWritten`, and `PartyTable.FetchAllParties` takes its error branch.

## Findings

| source | as written | input that shows it | evidently intended | confidence | as-written member | corrected member |
|---|---|---|---|---|---|---|
| components/task-table.jsx:340-346 | `groupedTasks` is a plain object, so `groupedTasks[category]` finds inherited `Object.prototype` members; for such a category no array is created and `.push` throws a TypeError | one task whose category is "constructor" (also "toString", "__proto__", …) | group every category, whatever its name | high; not executed | TaskTable.GroupIntoAsWritten, TaskTable.ConstructorCategoryBreaksGrouping | TaskTable.GroupTasks, TaskTable.ConstructorCategoryGroupedCorrectly |
| components/party-table.jsx:87 | the fourth stage-name alternative is `Object.keys(...).find(...)`, which yields the key of the first string field rather than its value | a stage entry `{ title: "Foundation", stageData: [...] }` gets the stage name "title" | probably the value of that field, as the next alternative (line 88) reads; nothing in the repository says so, and the aggregation follows line 87 as written | low; not executed | PartyTable.StageNameAsWritten, PartyTable.StageNameReadsKey | PartyTable.StageNameOf |
| components/party-table.jsx:136-140 | `partyStageMapping` is a plain object, so a party named after an `Object.prototype` member finds a truthy inherited member; no Set is created and `.add` throws a TypeError, which fails the whole fallback | a stage row whose party column is "constructor" | list that party with its stages | high; not executed | PartyTable.TallyAsWritten, PartyTable.ConstructorPartyBreaksFallback | PartyTable.TallyOf, PartyTable.AggregateParties |
