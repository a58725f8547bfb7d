/** The task list of a selected party and stage (components/task-table.jsx):
    how a stage's rows become task records, in one of two sheet layouts, how
    the records are grouped by category for display, and the filters and
    suggestion lists of the table. */
module TaskTable {
  import opened Strings
  import opened Lists
  import opened Sheet
  import StageTable

  // ---------------------------------------------------------------------
  // Stage classification

  /** The stages whose sheets use the horizontal category layout. */
  const HorizontalStages: seq<string> := ["Site Management", "CIVIL & FABRICATION", "SERVICES & Complete Stone Work"]

  /** Either name, lower-cased, contains the other lower-cased. */
  predicate NamesOverlap(stageName: string, fixed: string) {
    Contains(Lower(stageName), Lower(fixed)) || Contains(Lower(fixed), Lower(stageName))
  }

  /** `isHorizontalCategoryStage`: the stage name overlaps one of the fixed names. */
  predicate IsHorizontalCategoryStage(stageName: string) {
    exists k :: 0 <= k < |HorizontalStages| && NamesOverlap(stageName, HorizontalStages[k])
  }

  /** The empty name is contained in every fixed name, so a stage without a
      name is treated as horizontal. */
  lemma EmptyStageIsHorizontal()
    ensures IsHorizontalCategoryStage("")
  {
    ContainsEmpty(Lower(HorizontalStages[0]));
    assert NamesOverlap("", HorizontalStages[0]);
  }

  /** The classification ignores letter case. */
  lemma HorizontalIgnoresCase(stageName: string)
    ensures IsHorizontalCategoryStage(stageName) <==> IsHorizontalCategoryStage(Lower(stageName))
    ensures IsHorizontalCategoryStage(stageName) <==> IsHorizontalCategoryStage(Upper(stageName))
  {
    LowerIdempotent(stageName);
    LowerUpper(stageName);
  }

  /** Any part of a fixed name (such as "Site" or "Stone Work") is horizontal. */
  lemma PartOfFixedNameIsHorizontal(k: nat, i: nat, j: nat)
    requires k < |HorizontalStages| && i <= j <= |HorizontalStages[k]|
    ensures IsHorizontalCategoryStage(HorizontalStages[k][i..j])
  {
    var fixed := HorizontalStages[k];
    LowerSlice(fixed, i, j);
    ContainsSlice(Lower(fixed), i, j);
    assert NamesOverlap(fixed[i..j], fixed);
  }

  /** Any stage name that has a fixed name inside it is horizontal. */
  lemma ExtendedFixedNameIsHorizontal(k: nat, before: string, after: string)
    requires k < |HorizontalStages|
    ensures IsHorizontalCategoryStage(before + HorizontalStages[k] + after)
  {
    var fixed := HorizontalStages[k];
    var name := before + fixed + after;
    LowerAppend(before + fixed, after);
    LowerAppend(before, fixed);
    LowerSlice(name, |before|, |before| + |fixed|);
    assert name[|before|..|before| + |fixed|] == fixed;
    ContainsSlice(Lower(name), |before|, |before| + |fixed|);
    assert NamesOverlap(name, fixed);
  }

  // ---------------------------------------------------------------------
  // Column letters

  /** The spreadsheet letters of the 0-based column `n` (bijective base 26:
      "A".."Z", "AA", ...); empty for a negative `n`. */
  function ColumnLetters(n: int): (r: string)
    ensures r == [] <==> n < 0
    ensures forall i :: 0 <= i < |r| ==> 'A' <= r[i] <= 'Z'
    decreases n + 1
  {
    if n < 0 then [] else ColumnLetters(n / 26 - 1) + [(n % 26 + 65) as char]
  }

  /** `getColumnLetter`: prepends a letter and moves to the next digit until
      `num` becomes negative. */
  method GetColumnLetter(index: int) returns (result: string)
    ensures result == ColumnLetters(index)
  {
    result := "";
    var num := index;
    while num >= 0
      invariant ColumnLetters(index) == ColumnLetters(num) + result
      decreases num + 1
    {
      result := [(num % 26 + 65) as char] + result;
      num := num / 26 - 1;
      if num < 0 {
        break;
      }
    }
  }

  predicate IsLetters(s: string) {
    forall i :: 0 <= i < |s| ==> 'A' <= s[i] <= 'Z'
  }

  /** Reads column letters back: "A" is 1, "Z" is 26, "AA" is 27. */
  function LettersValue(s: string): nat
    requires IsLetters(s)
  {
    if s == [] then 0 else LettersValue(s[..|s| - 1]) * 26 + (s[|s| - 1] as int - 'A' as int + 1)
  }

  /** Decoding the letters of column `n` gives `n + 1`. */
  lemma {:induction false} ColumnLettersRoundTrip(n: nat)
    ensures LettersValue(ColumnLetters(n)) == n + 1
    decreases n
  {
    var r := ColumnLetters(n);
    assert r[..|r| - 1] == ColumnLetters(n / 26 - 1);
    if n / 26 - 1 >= 0 {
      ColumnLettersRoundTrip(n / 26 - 1);
    }
  }

  /** Every non-empty string of capital letters is the name of exactly the
      column its value gives. */
  lemma {:induction false} ColumnLettersOnto(s: string)
    requires s != [] && IsLetters(s)
    ensures LettersValue(s) >= 1
    ensures ColumnLetters(LettersValue(s) - 1) == s
    decreases |s|
  {
    var init := s[..|s| - 1];
    var n := LettersValue(s) - 1;
    var d := s[|s| - 1] as int - 'A' as int;
    assert n == LettersValue(init) * 26 + d;
    assert n / 26 == LettersValue(init) && n % 26 == d;
    if init != [] {
      ColumnLettersOnto(init);
    }
    assert s == init + [s[|s| - 1]];
  }

  /** Distinct columns have distinct letters. */
  lemma ColumnLettersInjective(m: nat, n: nat)
    requires ColumnLetters(m) == ColumnLetters(n)
    ensures m == n
  {
    ColumnLettersRoundTrip(m);
    ColumnLettersRoundTrip(n);
  }

  lemma ColumnLettersExamples()
    ensures ColumnLetters(0) == "A" && ColumnLetters(25) == "Z" && ColumnLetters(26) == "AA"
    ensures ColumnLetters(-1) == ""
  {
    assert ColumnLetters(26) == ColumnLetters(0) + "A";
  }

  // ---------------------------------------------------------------------
  // Category discovery (horizontal layout)

  /** The header row, the first data row and the first category column of a
      horizontal sheet, and the last column the scan looks at. */
  const HeaderRowIndex: nat := 4
  const DataStartRowIndex: nat := 5
  const CategoryStartColumn: nat := 5
  const MaxColumnToCheck: nat := 200

  /** A category found in the header row: its trimmed name and its column. */
  datatype Category = Category(name: string, colIndex: nat)

  /** `row[`col_${n}`]`. */
  function Col(row: Row, n: nat): Cell {
    Get(row, ColKey(n))
  }

  /** How the scan sees one header slot: falsy, or truthy with its trimmed
      text. */
  datatype HeaderSlot = Falsy | Text(text: string)

  function SlotOf(header: Row, col: nat): (s: HeaderSlot)
    ensures s.Falsy? <==> !Truthy(Col(header, col))
    ensures s.Text? ==> s.text == Trim(ToStr(Col(header, col)))
  {
    if Truthy(Col(header, col)) then Text(Trim(ToStr(Col(header, col)))) else Falsy
  }

  /** The header row as the scan sees it, column by column. */
  function HeaderView(header: Row): nat -> HeaderSlot {
    (col: nat) => SlotOf(header, col)
  }

  /** A slot counted by the early-termination check: falsy, or blank once
      trimmed. */
  predicate IsEmptySlot(s: HeaderSlot) {
    s.Falsy? || s.text == []
  }

  /** A trimmed header text that names a category: non-empty, longer than
      one character, and neither "-" nor "N/A". */
  predicate IsCategoryName(name: string) {
    name != [] && |name| > 1 && name != "-" && name != "N/A"
  }

  /** The length test already excludes the empty name and "-". */
  lemma CategoryNameRedundantTests(name: string)
    ensures IsCategoryName(name) <==> |name| > 1 && name != "N/A"
  {
  }

  /** The number of empty slots among `col`, `col + 5`, ... below `end`,
      not looking past column 200. */
  function CountEmpty(view: nat -> HeaderSlot, col: nat, end: nat): (n: nat)
    decreases if col < end then end - col else 0
  {
    if col < end && col <= MaxColumnToCheck then
      (if IsEmptySlot(view(col)) then 1 else 0) + CountEmpty(view, col + 5, end)
    else 0
  }

  /** The scan stops at a falsy slot when the next two grid positions exist
      (up to column 200) and are empty too. */
  predicate StopsAt(view: nat -> HeaderSlot, col: nat) {
    view(col).Falsy? && col + 10 <= MaxColumnToCheck && IsEmptySlot(view(col + 5)) && IsEmptySlot(view(col + 10))
  }

  /** At a falsy slot, the count of the inner loop reaches 3 exactly when
      the scan stops there. */
  lemma StopsAtCount(view: nat -> HeaderSlot, col: nat)
    requires view(col).Falsy?
    ensures StopsAt(view, col) <==> CountEmpty(view, col, col + 15) >= 3
  {
    assert CountEmpty(view, col + 15, col + 15) == 0;
    assert CountEmpty(view, col + 10, col + 15) == if col + 10 <= MaxColumnToCheck && IsEmptySlot(view(col + 10)) then 1 else 0;
    assert CountEmpty(view, col + 5, col + 15) ==
      (if col + 5 <= MaxColumnToCheck && IsEmptySlot(view(col + 5)) then 1 else 0) + CountEmpty(view, col + 10, col + 15);
  }

  /** The number of grid positions the scan can visit: columns 5, 10, ..., 200. */
  const GridSize: nat := 40

  /** The column of the `i`-th grid position. */
  function GridColumn(i: nat): (col: nat)
    ensures col >= CategoryStartColumn
    ensures i < GridSize <==> col <= MaxColumnToCheck
  {
    CategoryStartColumn + 5 * i
  }

  /** The state of the scan: the categories found so far, and whether the
      early-termination check has fired. */
  datatype Scan = Scan(found: seq<Category>, stopped: bool)

  /** The scan visiting column `col`: nothing happens once it has stopped; a
      truthy slot adds a category when its text is a category name; a falsy
      slot may stop the scan. */
  function ScanAt(view: nat -> HeaderSlot, s: Scan, col: nat): Scan {
    if s.stopped then s
    else match view(col)
      case Text(name) => if IsCategoryName(name) then Scan(s.found + [Category(name, col)], false) else s
      case Falsy => if StopsAt(view, col) then Scan(s.found, true) else s
  }

  /** The scan after the first `n` grid positions. */
  function ScanSteps(view: nat -> HeaderSlot, n: nat): Scan
    decreases n
  {
    if n == 0 then Scan([], false) else ScanAt(view, ScanSteps(view, n - 1), GridColumn(n - 1))
  }

  /** The categories of a header row: those found over the whole grid. */
  function Categories(view: nat -> HeaderSlot): seq<Category> {
    ScanSteps(view, GridSize).found
  }

  /** The categories of a sheet: those of the header row, none when the
      sheet has no header row. */
  function DiscoverCategories(data: seq<Row>): seq<Category> {
    if |data| > HeaderRowIndex then Categories(HeaderView(data[HeaderRowIndex])) else []
  }

  /** The scan has not stopped at any of the first `i` grid positions. */
  predicate NotStoppedBefore(view: nat -> HeaderSlot, i: nat) {
    forall j :: 0 <= j < i ==> !StopsAt(view, GridColumn(j))
  }

  /** The inner loop: counts the empty slots among the slot and the next two. */
  method CountEmptyAhead(view: nat -> HeaderSlot, colIndex: nat) returns (consecutiveEmpty: nat)
    ensures consecutiveEmpty == CountEmpty(view, colIndex, colIndex + 15)
  {
    consecutiveEmpty := 0;
    var checkCol := colIndex;
    while checkCol < colIndex + 15 && checkCol <= MaxColumnToCheck
      invariant consecutiveEmpty + CountEmpty(view, checkCol, colIndex + 15) == CountEmpty(view, colIndex, colIndex + 15)
      decreases colIndex + 15 - checkCol
    {
      var checked := view(checkCol);
      if checked.Falsy? || checked.text == [] {
        consecutiveEmpty := consecutiveEmpty + 1;
      }
      checkCol := checkCol + 5;
    }
  }

  /** Once stopped, the scan stays as it is. */
  lemma {:induction false} StoppedStays(view: nat -> HeaderSlot, m: nat, n: nat)
    requires m <= n && ScanSteps(view, m).stopped
    ensures ScanSteps(view, n) == ScanSteps(view, m)
    decreases n
  {
    if m < n {
      StoppedStays(view, m, n - 1);
    }
  }

  /** The discovery loop of `fetchHorizontalTasks`, over the header row as
      `HeaderView` presents it, with its `break`. */
  method ScanCategories(view: nat -> HeaderSlot) returns (categoryPositions: seq<Category>)
    ensures categoryPositions == Categories(view)
  {
    categoryPositions := [];
    var colIndex := CategoryStartColumn;
    ghost var k := 0;
    while colIndex <= MaxColumnToCheck
      invariant k <= GridSize && colIndex == GridColumn(k)
      invariant ScanSteps(view, k) == Scan(categoryPositions, false)
      decreases GridSize - k
    {
      var slot := view(colIndex);
      if slot.Text? {
        var categoryName := slot.text;
        if IsCategoryName(categoryName) {
          categoryPositions := categoryPositions + [Category(categoryName, colIndex)];
        }
      } else {
        var consecutiveEmpty := CountEmptyAhead(view, colIndex);
        StopsAtCount(view, colIndex);
        if consecutiveEmpty >= 3 {
          StoppedStays(view, k + 1, GridSize);
          return;
        }
      }
      colIndex := colIndex + 5;
      k := k + 1;
    }
  }

  /** The scan has stopped exactly when the stop test held at one of the
      grid positions visited. */
  lemma {:induction false} ScanStopped(view: nat -> HeaderSlot, n: nat)
    ensures ScanSteps(view, n).stopped <==> !NotStoppedBefore(view, n)
    decreases n
  {
    if n > 0 {
      ScanStopped(view, n - 1);
    }
  }

  /** A category is found exactly when it sits at a grid position whose
      slot holds that name, the name is a category name, and the scan has
      not stopped at an earlier position: categories after a stop are never
      found. */
  lemma {:induction false} CategoryFound(view: nat -> HeaderSlot, n: nat, c: Category)
    ensures c in ScanSteps(view, n).found <==>
      exists i :: 0 <= i < n && c.colIndex == GridColumn(i) && view(GridColumn(i)) == Text(c.name)
        && IsCategoryName(c.name) && NotStoppedBefore(view, i)
    decreases n
  {
    if n > 0 {
      CategoryFound(view, n - 1, c);
      ScanStopped(view, n - 1);
      var s := ScanSteps(view, n - 1);
      if c in ScanSteps(view, n).found && c !in s.found {
        assert c.colIndex == GridColumn(n - 1) && view(GridColumn(n - 1)) == Text(c.name);
      }
      if i :| (0 <= i < n && c.colIndex == GridColumn(i) && view(GridColumn(i)) == Text(c.name)
               && IsCategoryName(c.name) && NotStoppedBefore(view, i)) {
        if i < n - 1 {
          assert c in s.found;
        }
      }
    }
  }

  /** The columns of the categories found ascend strictly and lie before
      the next grid position. */
  lemma {:induction false} CategoriesAscending(view: nat -> HeaderSlot, n: nat)
    ensures forall i :: 0 <= i < |ScanSteps(view, n).found| ==>
      CategoryStartColumn <= ScanSteps(view, n).found[i].colIndex < GridColumn(n)
    ensures forall i, j :: 0 <= i < j < |ScanSteps(view, n).found| ==>
      ScanSteps(view, n).found[i].colIndex < ScanSteps(view, n).found[j].colIndex
    decreases n
  {
    if n > 0 {
      CategoriesAscending(view, n - 1);
      var a := ScanSteps(view, n - 1).found;
      var r := ScanSteps(view, n).found;
      assert forall i :: 0 <= i < |a| ==> r[i] == a[i];
    }
  }

  /** The discovered names are trimmed. */
  lemma CategoryNamesTrimmed(header: Row)
    ensures forall c :: c in Categories(HeaderView(header)) ==> Trim(c.name) == c.name
  {
    var view := HeaderView(header);
    forall c | c in Categories(view) ensures Trim(c.name) == c.name {
      CategoryFound(view, GridSize, c);
      var i :| 0 <= i < GridSize && c.colIndex == GridColumn(i) && view(GridColumn(i)) == Text(c.name)
        && IsCategoryName(c.name) && NotStoppedBefore(view, i);
      assert view(GridColumn(i)) == SlotOf(header, GridColumn(i));
      TrimIdempotent(ToStr(Col(header, GridColumn(i))));
    }
  }

  /** A truthy slot whose text is blank once trimmed is skipped without
      the stop check. */
  lemma BlankSlotSkipped(view: nat -> HeaderSlot, s: Scan, col: nat)
    requires view(col) == Text([])
    ensures ScanAt(view, s, col) == s
  {
  }

  // ---------------------------------------------------------------------
  // Cell cleaning

  /** `cleanValue`: `None` (null) for a falsy value, for exactly "-", and
      for a value that is blank once trimmed; otherwise the trimmed text. */
  function CleanValue(c: Cell): (r: Option<string>)
    ensures r.Some? ==> r.value != [] && r.value == Trim(ToStr(c)) && Trim(r.value) == r.value
    ensures r.None? <==> !Truthy(c) || c == Str("-") || forall i :: 0 <= i < |ToStr(c)| ==> IsSpace(ToStr(c)[i])
  {
    TrimSpec(ToStr(c));
    TrimIdempotent(ToStr(c));
    if !Truthy(c) || c == Str("-") then None
    else
      var str := Trim(ToStr(c));
      if str == [] then None else Some(str)
  }

  /** Only the exact text "-" is dropped: with spaces around it, the dash
      survives cleaning. */
  lemma CleanValueSpacedDash()
    ensures CleanValue(Str(" - ")) == Some("-")
  {
    assert TrimStart(" - ") == TrimStart("- ") by {
      assert " - "[1..] == "- ";
    }
    assert TrimEnd("- ") == TrimEnd("-") by {
      assert "- "[..1] == "-";
    }
  }

  /** Cleaning a cleaned text again changes nothing, unless it is "-". */
  lemma CleanValueStable(c: Cell)
    requires CleanValue(c).Some? && CleanValue(c).value != "-"
    ensures CleanValue(Str(CleanValue(c).value)) == CleanValue(c)
  {
  }

  // ---------------------------------------------------------------------
  // Horizontal extraction

  /** A data row of the party: its `col_2`, trimmed, is non-empty and equals
      the party's name when both are lower-cased. */
  predicate IsHorizontalPartyRow(row: Row, partyName: string) {
    var c := Col(row, 2);
    Truthy(c) && Trim(ToStr(c)) != [] && Lower(Trim(ToStr(c))) == Lower(partyName)
  }

  function HorizontalRowMatcher(partyName: string): Row -> bool {
    row => IsHorizontalPartyRow(row, partyName)
  }

  /** The party's rows from the first data row on, in sheet order. */
  function PartyRows(data: seq<Row>, partyName: string): seq<Row> {
    if |data| <= DataStartRowIndex then [] else Filter(data[DataStartRowIndex..], HorizontalRowMatcher(partyName))
  }

  /** One step of the row loop below. */
  lemma PartyRowsStep(data: seq<Row>, partyName: string, rowIndex: nat)
    requires DataStartRowIndex <= rowIndex < |data|
    ensures Filter(data[DataStartRowIndex..rowIndex + 1], HorizontalRowMatcher(partyName)) ==
      Filter(data[DataStartRowIndex..rowIndex], HorizontalRowMatcher(partyName))
      + if IsHorizontalPartyRow(data[rowIndex], partyName) then [data[rowIndex]] else []
  {
    var rest := data[DataStartRowIndex..rowIndex + 1];
    var k := rowIndex - DataStartRowIndex;
    FilterStep(rest, k, HorizontalRowMatcher(partyName));
    assert rest[k] == data[rowIndex];
    assert rest[..k] == data[DataStartRowIndex..rowIndex];
    assert rest[..k + 1] == rest;
  }

  /** The test in the row loop below: column 2, trimmed, non-empty and equal
      to the party name up to case. */
  method MatchesParty(row: Row, partyName: string) returns (matches: bool)
    ensures matches == IsHorizontalPartyRow(row, partyName)
  {
    matches := false;
    var c := Get(row, ColKey(2));
    if Truthy(c) {
      var name := Trim(ToStr(c));
      if name != [] && Lower(name) == Lower(partyName) {
        matches := true;
      }
    }
  }

  /** The row loop of `fetchHorizontalTasks` that collects the party's rows. */
  method SelectPartyRows(data: seq<Row>, partyName: string) returns (partyTasks: seq<Row>)
    ensures partyTasks == PartyRows(data, partyName)
  {
    partyTasks := [];
    if |data| <= DataStartRowIndex {
      return;
    }
    var rowIndex := DataStartRowIndex;
    while rowIndex < |data|
      invariant DataStartRowIndex <= rowIndex <= |data|
      invariant partyTasks == Filter(data[DataStartRowIndex..rowIndex], HorizontalRowMatcher(partyName))
    {
      var row := data[rowIndex];
      PartyRowsStep(data, partyName, rowIndex);
      var matches := MatchesParty(row, partyName);
      if matches {
        partyTasks := partyTasks + [row];
      }
      rowIndex := rowIndex + 1;
    }
    assert data[DataStartRowIndex..rowIndex] == data[DataStartRowIndex..];
  }

  /** The party's rows are exactly the matching rows at index 5 or later, in
      sheet order. */
  lemma PartyRowsSpec(data: seq<Row>, partyName: string)
    ensures IsSubsequence(PartyRows(data, partyName), data[if |data| <= DataStartRowIndex then |data| else DataStartRowIndex..])
    ensures forall row :: row in PartyRows(data, partyName) <==>
      exists i :: DataStartRowIndex <= i < |data| && data[i] == row && IsHorizontalPartyRow(row, partyName)
  {
    if |data| > DataStartRowIndex {
      var rest := data[DataStartRowIndex..];
      FilterIsSubsequence(rest, HorizontalRowMatcher(partyName));
      forall row ensures row in rest <==> exists i :: DataStartRowIndex <= i < |data| && data[i] == row {
        if row in rest {
          var k :| 0 <= k < |rest| && rest[k] == row;
          assert data[DataStartRowIndex + k] == row;
        }
      }
    }
  }

  /** A task's id: `index + 1` for regular stages and
      `${partyIndex}-${categoryIndex}` for horizontal ones. */
  datatype TaskId = Index(n: nat) | Pair(row: nat, category: nat)

  /** A task record; `columnOrder` is set for horizontal tasks only. */
  datatype Task = Task(
    id: TaskId, draftCategory: string, name: string, status: string,
    plannedDate: Option<string>, actualDate: Option<string>, delay: string,
    columnOrder: Option<nat>)

  /** A party row as the extraction reads it: every `col_N`, cleaned. */
  function CleanedRow(row: Row): nat -> Option<string> {
    (n: nat) => CleanValue(Col(row, n))
  }

  /** The task of one party row under one category: the category's column
      holds the task name, the next four the planned date, actual date,
      delay and status. There is a task when the name and at least one of
      planned, actual and status survive cleaning; status and delay default
      to "Pending" and "0". */
  function CategoryTask(cells: nat -> Option<string>, partyIndex: nat, category: Category, categoryIndex: nat): (t: Option<Task>)
    ensures t.Some? ==>
      && t.value.id == Pair(partyIndex, categoryIndex) && t.value.draftCategory == category.name
      && t.value.columnOrder == Some(category.colIndex)
  {
    var col := category.colIndex;
    var name := cells(col);
    var planned := cells(col + 1);
    var actual := cells(col + 2);
    var delay := cells(col + 3);
    var status := cells(col + 4);
    if name.Some? && (planned.Some? || actual.Some? || status.Some?) then
      Some(Task(Pair(partyIndex, categoryIndex), category.name, name.value, status.GetOr("Pending"),
                planned, actual, delay.GetOr("0"), Some(col)))
    else None
  }

  /** A task is emitted exactly when the name cell and one of the planned,
      actual and status cells exist, and it carries those cells. */
  lemma CategoryTaskCells(cells: nat -> Option<string>, partyIndex: nat, category: Category, categoryIndex: nat)
    ensures var col := category.colIndex;
      var t := CategoryTask(cells, partyIndex, category, categoryIndex);
      && (t.Some? <==> cells(col).Some? && (cells(col + 1).Some? || cells(col + 2).Some? || cells(col + 4).Some?))
      && (t.Some? ==>
            && Some(t.value.name) == cells(col)
            && t.value.plannedDate == cells(col + 1)
            && t.value.actualDate == cells(col + 2)
            && t.value.delay == cells(col + 3).GetOr("0")
            && t.value.status == cells(col + 4).GetOr("Pending"))
  {
  }

  /** On a party row, a task is emitted for a category exactly when the
      cleaned name and one of the cleaned planned, actual or status values
      exist; its name is non-empty and trimmed, and so are its status and
      delay or they are the defaults. */
  lemma CategoryTaskSpec(row: Row, partyIndex: nat, category: Category, categoryIndex: nat)
    ensures var col := category.colIndex;
      var t := CategoryTask(CleanedRow(row), partyIndex, category, categoryIndex);
      && (t.Some? <==>
            (CleanValue(Col(row, col)).Some? &&
              (CleanValue(Col(row, col + 1)).Some? || CleanValue(Col(row, col + 2)).Some? || CleanValue(Col(row, col + 4)).Some?)))
      && (t.Some? ==>
            && Some(t.value.name) == CleanValue(Col(row, col))
            && t.value.name != [] && Trim(t.value.name) == t.value.name
            && t.value.plannedDate == CleanValue(Col(row, col + 1))
            && t.value.actualDate == CleanValue(Col(row, col + 2))
            && t.value.delay == CleanValue(Col(row, col + 3)).GetOr("0")
            && t.value.status == CleanValue(Col(row, col + 4)).GetOr("Pending"))
  {
    CategoryTaskPresent(row, partyIndex, category, categoryIndex);
    CategoryTaskFields(row, partyIndex, category, categoryIndex);
  }

  /** The first half of `CategoryTaskSpec`: when there is a task. */
  lemma CategoryTaskPresent(row: Row, partyIndex: nat, category: Category, categoryIndex: nat)
    ensures var col := category.colIndex;
      CategoryTask(CleanedRow(row), partyIndex, category, categoryIndex).Some? <==>
        (CleanValue(Col(row, col)).Some? &&
          (CleanValue(Col(row, col + 1)).Some? || CleanValue(Col(row, col + 2)).Some? || CleanValue(Col(row, col + 4)).Some?))
  {
    var col := category.colIndex;
    var cells := CleanedRow(row);
    CategoryTaskCells(cells, partyIndex, category, categoryIndex);
    assert cells(col) == CleanValue(Col(row, col));
    assert cells(col + 1) == CleanValue(Col(row, col + 1));
    assert cells(col + 2) == CleanValue(Col(row, col + 2));
    assert cells(col + 4) == CleanValue(Col(row, col + 4));
  }

  /** The second half of `CategoryTaskSpec`: what the task holds. */
  lemma CategoryTaskFields(row: Row, partyIndex: nat, category: Category, categoryIndex: nat)
    ensures var col := category.colIndex;
      var t := CategoryTask(CleanedRow(row), partyIndex, category, categoryIndex);
      t.Some? ==>
        && Some(t.value.name) == CleanValue(Col(row, col))
        && t.value.name != [] && Trim(t.value.name) == t.value.name
        && t.value.plannedDate == CleanValue(Col(row, col + 1))
        && t.value.actualDate == CleanValue(Col(row, col + 2))
        && t.value.delay == CleanValue(Col(row, col + 3)).GetOr("0")
        && t.value.status == CleanValue(Col(row, col + 4)).GetOr("Pending")
  {
    var col := category.colIndex;
    var cells := CleanedRow(row);
    CategoryTaskCells(cells, partyIndex, category, categoryIndex);
    assert cells(col) == CleanValue(Col(row, col));
    assert cells(col + 1) == CleanValue(Col(row, col + 1));
    assert cells(col + 2) == CleanValue(Col(row, col + 2));
    assert cells(col + 3) == CleanValue(Col(row, col + 3));
    assert cells(col + 4) == CleanValue(Col(row, col + 4));
  }

  /** The task, if any, of one party row under the category at position
      `c` of `categories`; none past the last category. */
  function CategoryTasksOf(cells: nat -> Option<string>, partyIndex: nat, categories: seq<Category>): nat -> Option<Task> {
    (c: nat) => if c < |categories| then CategoryTask(cells, partyIndex, categories[c], c) else None
  }

  /** The tasks of the party row at `partyIndex`, category by category. */
  function RowTasks(cells: nat -> Option<string>, partyIndex: nat, categories: seq<Category>): seq<Task> {
    Gather(|categories|, CategoryTasksOf(cells, partyIndex, categories))
  }

  /** The tasks of the party row at position `p` of `rows`; none past the
      last row. */
  function RowTasksOf(rows: seq<Row>, categories: seq<Category>): nat -> seq<Task> {
    (p: nat) => if p < |rows| then RowTasks(CleanedRow(rows[p]), p, categories) else []
  }

  /** The tasks of all party rows: row-major, category-minor. */
  function HorizontalTasks(rows: seq<Row>, categories: seq<Category>): seq<Task> {
    Flatten(|rows|, RowTasksOf(rows, categories))
  }

  lemma RowTasksStep(cells: nat -> Option<string>, partyIndex: nat, categories: seq<Category>, c: nat)
    requires c < |categories|
    ensures var f := CategoryTasksOf(cells, partyIndex, categories);
      var t := CategoryTask(cells, partyIndex, categories[c], c);
      Gather(c + 1, f) == Gather(c, f) + if t.Some? then [t.value] else []
  {
  }

  lemma HorizontalTasksStep(rows: seq<Row>, categories: seq<Category>, p: nat)
    requires p < |rows|
    ensures Flatten(p + 1, RowTasksOf(rows, categories)) ==
      Flatten(p, RowTasksOf(rows, categories)) + RowTasks(CleanedRow(rows[p]), p, categories)
  {
  }

  /** The body of that `forEach`: the five cleaned cells from the
      category's column on, and the task when its name and one of the
      planned, actual or status values exist. */
  method ReadTask(cells: nat -> Option<string>, partyIndex: nat, category: Category, categoryIndex: nat) returns (task: Option<Task>)
    ensures task == CategoryTask(cells, partyIndex, category, categoryIndex)
  {
    var taskNameCol := category.colIndex;
    var cleanTaskName := cells(taskNameCol);
    var cleanPlanned := cells(taskNameCol + 1);
    var cleanActual := cells(taskNameCol + 2);
    var cleanDelay := cells(taskNameCol + 3);
    var cleanStatus := cells(taskNameCol + 4);
    task := None;
    if cleanTaskName.Some? && (cleanPlanned.Some? || cleanActual.Some? || cleanStatus.Some?) {
      task := Some(Task(Pair(partyIndex, categoryIndex), category.name, cleanTaskName.value,
                        cleanStatus.GetOr("Pending"), cleanPlanned, cleanActual, cleanDelay.GetOr("0"), Some(taskNameCol)));
    }
  }

  /** The inner `forEach` over the categories of one party row, reading the
      row's cleaned cells. */
  method BuildRowTasks(cells: nat -> Option<string>, partyIndex: nat, categoryPositions: seq<Category>) returns (tasks: seq<Task>)
    ensures tasks == RowTasks(cells, partyIndex, categoryPositions)
  {
    tasks := [];
    var categoryIndex := 0;
    while categoryIndex < |categoryPositions|
      invariant 0 <= categoryIndex <= |categoryPositions|
      invariant tasks == Gather(categoryIndex, CategoryTasksOf(cells, partyIndex, categoryPositions))
    {
      RowTasksStep(cells, partyIndex, categoryPositions, categoryIndex);
      var task := ReadTask(cells, partyIndex, categoryPositions[categoryIndex], categoryIndex);
      if task.Some? {
        tasks := tasks + [task.value];
      } else {
        assert tasks + [] == tasks;
      }
      categoryIndex := categoryIndex + 1;
    }
  }

  /** The outer `forEach` over the party rows, pushing into `transformedTasks`. */
  method BuildHorizontalTasks(partyTasks: seq<Row>, categoryPositions: seq<Category>) returns (transformedTasks: seq<Task>)
    ensures transformedTasks == HorizontalTasks(partyTasks, categoryPositions)
  {
    transformedTasks := [];
    var partyIndex := 0;
    while partyIndex < |partyTasks|
      invariant 0 <= partyIndex <= |partyTasks|
      invariant transformedTasks == Flatten(partyIndex, RowTasksOf(partyTasks, categoryPositions))
    {
      var rowTasks := BuildRowTasks(CleanedRow(partyTasks[partyIndex]), partyIndex, categoryPositions);
      HorizontalTasksStep(partyTasks, categoryPositions, partyIndex);
      transformedTasks := transformedTasks + rowTasks;
      partyIndex := partyIndex + 1;
    }
  }

  /** The tasks of a horizontal sheet: none for an empty sheet, a sheet
      without categories or a party without rows. */
  function HorizontalTasksFor(data: seq<Row>, partyName: string): seq<Task> {
    if data == [] then []
    else
      var categories := DiscoverCategories(data);
      if categories == [] then []
      else
        var rows := PartyRows(data, partyName);
        if rows == [] then [] else HorizontalTasks(rows, categories)
  }

  /** `fetchHorizontalTasks`, with its three early returns. */
  method FetchHorizontalTasks(stageData: seq<Row>, partyName: string) returns (tasks: seq<Task>)
    ensures tasks == HorizontalTasksFor(stageData, partyName)
  {
    if stageData == [] {
      return [];
    }
    var categoryPositions := [];
    if |stageData| > HeaderRowIndex {
      categoryPositions := ScanCategories(HeaderView(stageData[HeaderRowIndex]));
    }
    if categoryPositions == [] {
      return [];
    }
    var partyTasks := SelectPartyRows(stageData, partyName);
    if partyTasks == [] {
      return [];
    }
    tasks := BuildHorizontalTasks(partyTasks, categoryPositions);
  }

  /** The party row of a horizontal task's id, -1 for any other id. */
  function IdRow(t: Task): int {
    if t.id.Pair? then t.id.row else -1
  }

  /** The category position of a horizontal task's id, -1 for any other id. */
  function IdCategory(t: Task): int {
    if t.id.Pair? then t.id.category else -1
  }

  /** A row's tasks are exactly those its categories give. */
  lemma RowTasksOrigin(cells: nat -> Option<string>, partyIndex: nat, categories: seq<Category>, t: Task)
    ensures t in RowTasks(cells, partyIndex, categories) <==>
      exists c :: 0 <= c < |categories| && CategoryTask(cells, partyIndex, categories[c], c) == Some(t)
  {
    var f := CategoryTasksOf(cells, partyIndex, categories);
    GatherOrigin(|categories|, f, t);
    if t in RowTasks(cells, partyIndex, categories) {
      var c :| 0 <= c < |categories| && f(c) == Some(t);
      assert CategoryTask(cells, partyIndex, categories[c], c) == Some(t);
    }
    if c :| 0 <= c < |categories| && CategoryTask(cells, partyIndex, categories[c], c) == Some(t) {
      assert f(c) == Some(t);
    }
  }

  /** A row's tasks all carry that row's index and ascending category
      positions below the number of categories. */
  lemma RowTasksIds(cells: nat -> Option<string>, partyIndex: nat, categories: seq<Category>)
    ensures forall i :: 0 <= i < |RowTasks(cells, partyIndex, categories)| ==>
      var t := RowTasks(cells, partyIndex, categories)[i];
      t.id.Pair? && t.id.row == partyIndex && t.id.category < |categories|
    ensures forall i, j :: 0 <= i < j < |RowTasks(cells, partyIndex, categories)| ==>
      RowTasks(cells, partyIndex, categories)[i].id.category < RowTasks(cells, partyIndex, categories)[j].id.category
  {
    var f := CategoryTasksOf(cells, partyIndex, categories);
    var ts := RowTasks(cells, partyIndex, categories);
    GatherAscending(|categories|, f, IdCategory);
    forall i | 0 <= i < |ts| ensures ts[i].id.Pair? && ts[i].id.row == partyIndex {
      assert ts[i] in ts;
      RowTasksOrigin(cells, partyIndex, categories, ts[i]);
    }
  }

  /** A task is extracted exactly when some party row and category give it. */
  lemma HorizontalTasksOrigin(rows: seq<Row>, categories: seq<Category>, t: Task)
    ensures t in HorizontalTasks(rows, categories) <==>
      exists p, c :: 0 <= p < |rows| && 0 <= c < |categories| && CategoryTask(CleanedRow(rows[p]), p, categories[c], c) == Some(t)
  {
    var g := RowTasksOf(rows, categories);
    FlattenOrigin(|rows|, g, t);
    if t in HorizontalTasks(rows, categories) {
      var p :| 0 <= p < |rows| && t in g(p);
      RowTasksOrigin(CleanedRow(rows[p]), p, categories, t);
    }
    if p, c :| 0 <= p < |rows| && 0 <= c < |categories| && CategoryTask(CleanedRow(rows[p]), p, categories[c], c) == Some(t) {
      RowTasksOrigin(CleanedRow(rows[p]), p, categories, t);
      assert t in g(p);
    }
  }

  /** `${partyIndex}-${categoryIndex}` ids, compared row first. */
  predicate IdBefore(a: TaskId, b: TaskId) {
    a.Pair? && b.Pair? && (a.row < b.row || (a.row == b.row && a.category < b.category))
  }

  /** Horizontal tasks come out party-row-major and category-minor, so their
      ids are distinct and ascending. */
  lemma HorizontalTasksOrdered(rows: seq<Row>, categories: seq<Category>)
    ensures forall i :: 0 <= i < |HorizontalTasks(rows, categories)| ==>
      var t := HorizontalTasks(rows, categories)[i];
      t.id.Pair? && t.id.row < |rows| && t.id.category < |categories|
    ensures forall i, j :: 0 <= i < j < |HorizontalTasks(rows, categories)| ==>
      IdBefore(HorizontalTasks(rows, categories)[i].id, HorizontalTasks(rows, categories)[j].id)
  {
    var g := RowTasksOf(rows, categories);
    forall p | 0 <= p < |rows| ensures forall i :: 0 <= i < |g(p)| ==> IdRow(g(p)[i]) == p && IdCategory(g(p)[i]) < |categories| {
      RowTasksIds(CleanedRow(rows[p]), p, categories);
    }
    forall p | 0 <= p < |rows| ensures forall i, j :: 0 <= i < j < |g(p)| ==> IdCategory(g(p)[i]) < IdCategory(g(p)[j]) {
      RowTasksIds(CleanedRow(rows[p]), p, categories);
    }
    FlattenOrdered(|rows|, g, IdRow, IdCategory);
    var ts := HorizontalTasks(rows, categories);
    forall i | 0 <= i < |ts| ensures ts[i].id.Pair? && ts[i].id.category < |categories| {
      assert ts[i] in ts;
      FlattenOrigin(|rows|, g, ts[i]);
      var p :| 0 <= p < |rows| && ts[i] in g(p);
    }
  }

  /** Every horizontal task carries the column and name of a category, so
      the alphabetical fallback of the group sort is never reached. */
  lemma HorizontalTasksHaveColumns(rows: seq<Row>, categories: seq<Category>)
    ensures forall t :: t in HorizontalTasks(rows, categories) ==>
      exists c :: 0 <= c < |categories| && t.columnOrder == Some(categories[c].colIndex) && t.draftCategory == categories[c].name
  {
    forall t | t in HorizontalTasks(rows, categories)
      ensures exists c :: 0 <= c < |categories| && t.columnOrder == Some(categories[c].colIndex) && t.draftCategory == categories[c].name
    {
      HorizontalTasksOrigin(rows, categories, t);
      var p, c :| 0 <= p < |rows| && 0 <= c < |categories| && CategoryTask(CleanedRow(rows[p]), p, categories[c], c) == Some(t);
    }
  }

  // ---------------------------------------------------------------------
  // Regular extraction

  /** A field of a regular row: the first truthy value under `keys`, else
      the value at position `col` when truthy, else `Null`. */
  function Field(row: Row, keys: seq<string>, col: nat): (c: Cell)
    ensures Truthy(c) <==> Truthy(FirstTruthyOf(row, keys)) || Truthy(ValueAt(row, col))
    ensures Truthy(FirstTruthyOf(row, keys)) ==> c == FirstTruthyOf(row, keys)
    ensures !Truthy(c) ==> c == Null
  {
    Or(FirstTruthyOf(row, keys), ValueAt(row, col))
  }

  /** The placeholder name of the regular task at `index`. */
  function DefaultName(index: nat): (r: string)
    ensures r != [] && Trim(r) == r
  {
    var r := "Task " + NatToString(index + 1);
    assert r[0] == 'T' && '0' <= r[|r| - 1] <= '9';
    TrimNoSpaces(r);
    r
  }

  /** The task of the party row at `index` of a regular stage. Category,
      name, status and delay always end up non-empty and trimmed, falling
      back to "General", "Task {index + 1}", "Pending" and "0". */
  function RegularTask(row: Row, index: nat): (t: Task)
    ensures t.id == Index(index + 1) && t.columnOrder == None
    ensures t.draftCategory != [] && Trim(t.draftCategory) == t.draftCategory
    ensures t.name != [] && Trim(t.name) == t.name
    ensures t.status != [] && Trim(t.status) == t.status
    ensures t.delay != [] && Trim(t.delay) == t.delay
    ensures t.plannedDate == CleanValue(Field(row, ["Planned"], 7))
    ensures t.actualDate == CleanValue(Field(row, ["Actual"], 8))
  {
    TrimNoSpaces("General");
    TrimNoSpaces("Pending");
    TrimNoSpaces("0");
    Task(Index(index + 1),
         CleanValue(Field(row, ["DraftCategory", "Draft Category"], 5)).GetOr("General"),
         CleanValue(Field(row, ["DraftName", "Draft Name"], 6)).GetOr(DefaultName(index)),
         CleanValue(Field(row, ["Status", "Azure Status"], 10)).GetOr("Pending"),
         CleanValue(Field(row, ["Planned"], 7)),
         CleanValue(Field(row, ["Actual"], 8)),
         CleanValue(Field(row, ["Delay"], 9)).GetOr("0"),
         None)
  }

  /** `fetchRegularTasks`: the stage's rows of the party, chosen by the
      stage table's test, mapped to tasks by position. */
  function RegularTasks(data: seq<Row>, partyName: string): (r: seq<Task>)
    ensures |r| == |StageTable.PartyTasks(data, partyName)|
    ensures forall i :: 0 <= i < |r| ==> r[i].id == Index(i + 1)
  {
    var rows := StageTable.PartyTasks(data, partyName);
    seq(|rows|, i requires 0 <= i < |rows| => RegularTask(rows[i], i))
  }

  /** One task per row of the party, in sheet order, with ids 1..n. */
  lemma RegularTasksSpec(data: seq<Row>, partyName: string)
    ensures var r := RegularTasks(data, partyName);
      && (forall i :: 0 <= i < |r| ==> r[i].id == Index(i + 1))
      && |r| == |Filter(data, StageTable.PartyTaskMatcher(partyName))|
      && IsSubsequence(StageTable.PartyTasks(data, partyName), data)
      && (forall row :: row in StageTable.PartyTasks(data, partyName) <==> row in data && StageTable.IsPartyTask(row, partyName))
  {
    StageTable.PartyTasksSubsequence(data, partyName);
  }

  /** A row without any usable value gets every default. */
  lemma RegularTaskDefaults(index: nat)
    ensures RegularTask([], index) == Task(Index(index + 1), "General", DefaultName(index), "Pending", None, None, "0", None)
  {
    EmptyRowField(["DraftCategory", "Draft Category"], 5);
    EmptyRowField(["DraftName", "Draft Name"], 6);
    EmptyRowField(["Status", "Azure Status"], 10);
    EmptyRowField(["Planned"], 7);
    EmptyRowField(["Actual"], 8);
    EmptyRowField(["Delay"], 9);
  }

  /** An empty row has no field to clean. */
  lemma {:induction false} EmptyRowField(keys: seq<string>, col: nat)
    ensures CleanValue(Field([], keys, col)) == None
    decreases |keys|
  {
    if keys != [] {
      EmptyRowField(keys[1..], col);
    }
  }

  /** A named key wins over the column position, which is only a fallback. */
  lemma RegularTaskPrefersNamedKeys(row: Row, index: nat)
    requires Truthy(Get(row, "DraftCategory"))
    ensures RegularTask(row, index).draftCategory == CleanValue(Get(row, "DraftCategory")).GetOr("General")
  {
  }

  // ---------------------------------------------------------------------
  // Grouping

  /** A task as the table shows it: the task with its group marks. */
  datatype DisplayTask = DisplayTask(task: Task, isFirstInCategory: bool, categoryTaskCount: nat, displayCategory: Option<string>)

  function CategoryOfTask(t: Task): string {
    t.draftCategory
  }

  function TaskOf(d: DisplayTask): Task {
    d.task
  }

  function InCategory(c: string): Task -> bool {
    (t: Task) => t.draftCategory == c
  }

  /** The categories of the tasks in first-seen order: the keys of
      `groupedTasks`. */
  function CategoriesOf(tasks: seq<Task>): (r: seq<string>)
    ensures NoDuplicates(r)
  {
    Distinct(Map(tasks, CategoryOfTask))
  }

  /** `groupedTasks[c]`: the tasks of category `c`, in extraction order. */
  function GroupOf(tasks: seq<Task>, c: string): (r: seq<Task>)
    ensures forall i :: 0 <= i < |r| ==> r[i].draftCategory == c
  {
    Filter(tasks, InCategory(c))
  }

  /** The column of the first task of category `c` (0 when it has none). */
  function FirstColumn(tasks: seq<Task>, c: string): int {
    var g := GroupOf(tasks, c);
    if g != [] && g[0].columnOrder.Some? then g[0].columnOrder.value else 0
  }

  /** The order of the group sort: by first column for a horizontal stage,
      by the default string order otherwise. */
  function CategoryOrder(tasks: seq<Task>, horizontal: bool): (string, string) -> bool {
    if horizontal then (a: string, b: string) => FirstColumn(tasks, a) < FirstColumn(tasks, b)
    else (a: string, b: string) => LexLess(a, b)
  }

  /** Both group orders are strict orders, so the sort is well defined. */
  lemma CategoryOrderStrict(tasks: seq<Task>, horizontal: bool)
    ensures StrictOrder(CategoryOrder(tasks, horizontal))
  {
    var less := CategoryOrder(tasks, horizontal);
    if !horizontal {
      forall a ensures !less(a, a) {
        LexLessIrreflexive(a);
      }
      forall a, b, c | less(a, b) && less(b, c) ensures less(a, c) {
        LexLessTransitive(a, b, c);
      }
    }
  }

  /** The sorted keys of `groupedTasks`. */
  function SortedCategories(tasks: seq<Task>, horizontal: bool): (r: seq<string>)
    ensures NoDuplicates(r)
  {
    InsertionSort(CategoriesOf(tasks), CategoryOrder(tasks, horizontal))
  }

  /** The entries pushed for one category: the group's tasks in order, the
      first marked and labelled with the category. */
  function Block(c: string, group: seq<Task>): (r: seq<DisplayTask>)
    ensures |r| == |group|
  {
    seq(|group|, i requires 0 <= i < |group| => DisplayTask(group[i], i == 0, |group|, if i == 0 then Some(c) else None))
  }

  function BlocksOf(tasks: seq<Task>, categories: seq<string>): nat -> seq<DisplayTask> {
    (p: nat) => if p < |categories| then Block(categories[p], GroupOf(tasks, categories[p])) else []
  }

  /** `finalTasks`: the blocks of the categories in sorted order. */
  function Grouped(tasks: seq<Task>, horizontal: bool): seq<DisplayTask> {
    var cs := SortedCategories(tasks, horizontal);
    Flatten(|cs|, BlocksOf(tasks, cs))
  }

  /** One more task adds its category to the first-seen keys when it is new. */
  lemma CategoriesOfStep(tasks: seq<Task>, i: nat)
    requires i < |tasks|
    ensures CategoriesOf(tasks[..i + 1]) ==
      if tasks[i].draftCategory in CategoriesOf(tasks[..i]) then CategoriesOf(tasks[..i])
      else CategoriesOf(tasks[..i]) + [tasks[i].draftCategory]
  {
    var m := Map(tasks[..i + 1], CategoryOfTask);
    assert m[..i] == Map(tasks[..i], CategoryOfTask);
    assert m == m[..i] + [m[i]];
  }

  /** Every category of a task is among the keys, and a category that is
      not among them has no tasks. */
  lemma CategoriesOfMember(tasks: seq<Task>, c: string)
    ensures c in CategoriesOf(tasks) <==> exists i :: 0 <= i < |tasks| && tasks[i].draftCategory == c
    ensures c !in CategoriesOf(tasks) ==> GroupOf(tasks, c) == []
  {
    var m := Map(tasks, CategoryOfTask);
    if c in m {
      var i :| 0 <= i < |m| && m[i] == c;
      assert tasks[i].draftCategory == c;
    }
    if i :| 0 <= i < |tasks| && tasks[i].draftCategory == c {
      assert m[i] == c;
    }
    if c !in CategoriesOf(tasks) {
      forall t | t in tasks ensures !InCategory(c)(t) {
        var i :| 0 <= i < |tasks| && tasks[i] == t;
        assert m[i] == t.draftCategory;
      }
      FilterNone(tasks, InCategory(c));
    }
  }

  /** Adding a task extends its own category's group and no other. */
  lemma GroupOfStep(tasks: seq<Task>, i: nat, c: string)
    requires i < |tasks|
    ensures GroupOf(tasks[..i + 1], c) == GroupOf(tasks[..i], c) + if tasks[i].draftCategory == c then [tasks[i]] else []
  {
    FilterStep(tasks, i, InCategory(c));
  }

  /** One task of the first grouping loop: its category's group grows by
      it, created when missing. */
  lemma CollectStep(tasks: seq<Task>, i: nat, groups: map<string, seq<Task>>)
    requires i < |tasks|
    requires forall c :: c in groups <==> c in CategoriesOf(tasks[..i])
    requires forall c :: c in groups ==> groups[c] == GroupOf(tasks[..i], c)
    ensures var category := tasks[i].draftCategory;
      var next := groups[category := (if category in groups then groups[category] else []) + [tasks[i]]];
      && CategoriesOf(tasks[..i + 1]) == (if category in groups then CategoriesOf(tasks[..i]) else CategoriesOf(tasks[..i]) + [category])
      && (forall c :: c in next <==> c in CategoriesOf(tasks[..i + 1]))
      && (forall c :: c in next ==> next[c] == GroupOf(tasks[..i + 1], c))
  {
    var category := tasks[i].draftCategory;
    CategoriesOfStep(tasks, i);
    if category !in groups {
      CategoriesOfMember(tasks[..i], category);
    }
    var next := groups[category := (if category in groups then groups[category] else []) + [tasks[i]]];
    forall c | c in next ensures next[c] == GroupOf(tasks[..i + 1], c) {
      GroupOfStep(tasks, i, c);
    }
  }

  /** The first loop of the grouping: `groupedTasks` and its keys in
      insertion order. */
  method CollectGroups(transformedTasks: seq<Task>) returns (groupedTasks: map<string, seq<Task>>, keys: seq<string>)
    ensures keys == CategoriesOf(transformedTasks)
    ensures forall c :: c in groupedTasks <==> c in keys
    ensures forall c :: c in groupedTasks ==> groupedTasks[c] == GroupOf(transformedTasks, c)
  {
    groupedTasks := map[];
    keys := [];
    var i := 0;
    while i < |transformedTasks|
      invariant 0 <= i <= |transformedTasks|
      invariant keys == CategoriesOf(transformedTasks[..i])
      invariant forall c :: c in groupedTasks <==> c in keys
      invariant forall c :: c in groupedTasks ==> groupedTasks[c] == GroupOf(transformedTasks[..i], c)
    {
      var task := transformedTasks[i];
      var category := task.draftCategory;
      CollectStep(transformedTasks, i, groupedTasks);
      if category !in groupedTasks {
        // a fresh empty group, then the push
        keys := keys + [category];
        groupedTasks := groupedTasks[category := [] + [task]];
      } else {
        groupedTasks := groupedTasks[category := groupedTasks[category] + [task]];
      }
      i := i + 1;
    }
    assert transformedTasks[..i] == transformedTasks;
  }

  /** The inner `forEach` of the grouping: one entry per task of the group,
      the first marked and labelled with the category. */
  method PushBlock(finalTasks: seq<DisplayTask>, category: string, categoryTasks: seq<Task>) returns (r: seq<DisplayTask>)
    ensures r == finalTasks + Block(category, categoryTasks)
  {
    r := finalTasks;
    ghost var block := Block(category, categoryTasks);
    var index := 0;
    while index < |categoryTasks|
      invariant 0 <= index <= |categoryTasks|
      invariant r == finalTasks + block[..index]
    {
      var entry := DisplayTask(categoryTasks[index], index == 0, |categoryTasks|, if index == 0 then Some(category) else None);
      assert block[..index + 1] == block[..index] + [entry];
      r := r + [entry];
      index := index + 1;
    }
    assert block[..index] == block;
  }

  /** The outer `forEach` over the sorted categories. */
  method PushBlocks(tasks: seq<Task>, sortedCategories: seq<string>, groupedTasks: map<string, seq<Task>>) returns (finalTasks: seq<DisplayTask>)
    requires forall c :: c in sortedCategories ==> c in groupedTasks && groupedTasks[c] == GroupOf(tasks, c)
    ensures finalTasks == Flatten(|sortedCategories|, BlocksOf(tasks, sortedCategories))
  {
    finalTasks := [];
    var k := 0;
    while k < |sortedCategories|
      invariant 0 <= k <= |sortedCategories|
      invariant finalTasks == Flatten(k, BlocksOf(tasks, sortedCategories))
    {
      var category := sortedCategories[k];
      finalTasks := PushBlock(finalTasks, category, groupedTasks[category]);
      k := k + 1;
    }
  }

  /** The grouping of `fetchTasks`: the dictionary, the sort of its keys,
      and the nested loop that pushes the marked entries. */
  method GroupTasks(transformedTasks: seq<Task>, horizontal: bool) returns (finalTasks: seq<DisplayTask>)
    ensures finalTasks == Grouped(transformedTasks, horizontal)
  {
    var groupedTasks, keys := CollectGroups(transformedTasks);
    var sortedCategories := InsertionSort(keys, CategoryOrder(transformedTasks, horizontal));
    finalTasks := PushBlocks(transformedTasks, sortedCategories, groupedTasks);
  }

  /** The position of category `c` in `cs`, -1 when absent. */
  function Position(cs: seq<string>, c: string): int {
    if c in cs then FirstIndex(cs, c) else -1
  }

  function BlockIndex(cs: seq<string>): DisplayTask -> int {
    (d: DisplayTask) => Position(cs, d.task.draftCategory)
  }

  function IsFirst(d: DisplayTask): bool {
    d.isFirstInCategory
  }

  lemma PositionOf(cs: seq<string>, p: nat)
    requires NoDuplicates(cs) && p < |cs|
    ensures Position(cs, cs[p]) == p
  {
  }

  /** Every entry of the block at `p` belongs to category `cs[p]`, and only
      its first entry is marked. */
  lemma BlocksKeyed(tasks: seq<Task>, cs: seq<string>)
    requires NoDuplicates(cs)
    ensures forall p, i :: 0 <= p < |cs| && 0 <= i < |BlocksOf(tasks, cs)(p)| ==>
      BlockIndex(cs)(BlocksOf(tasks, cs)(p)[i]) == p
    ensures forall p, i :: 0 <= p < |cs| && 0 <= i < |BlocksOf(tasks, cs)(p)| ==>
      (IsFirst(BlocksOf(tasks, cs)(p)[i]) <==> i == 0)
  {
    var g := BlocksOf(tasks, cs);
    forall p, i | 0 <= p < |cs| && 0 <= i < |g(p)| ensures BlockIndex(cs)(g(p)[i]) == p {
      PositionOf(cs, p);
      assert g(p)[i].task == GroupOf(tasks, cs[p])[i];
    }
  }

  /** An entry of the grouped list: a task of `tasks` in the block of its
      own category, counted and labelled as that block says. */
  lemma GroupedEntry(tasks: seq<Task>, horizontal: bool, i: nat)
    requires i < |Grouped(tasks, horizontal)|
    ensures var d := Grouped(tasks, horizontal)[i];
      && d.task in tasks
      && d.categoryTaskCount == |GroupOf(tasks, d.task.draftCategory)|
      && d.displayCategory == (if d.isFirstInCategory then Some(d.task.draftCategory) else None)
  {
    var cs := SortedCategories(tasks, horizontal);
    var g := BlocksOf(tasks, cs);
    var d := Grouped(tasks, horizontal)[i];
    assert d in Flatten(|cs|, g);
    FlattenOrigin(|cs|, g, d);
    var p :| 0 <= p < |cs| && d in g(p);
    var group := GroupOf(tasks, cs[p]);
    var j :| 0 <= j < |g(p)| && g(p)[j] == d;
    assert d == DisplayTask(group[j], j == 0, |group|, if j == 0 then Some(cs[p]) else None);
    assert group[j] in group;
  }

  /** Exactly the first task of each group is marked, and each entry
      carries its group's size and, when marked, its category. */
  lemma GroupedMarks(tasks: seq<Task>, horizontal: bool)
    ensures var r := Grouped(tasks, horizontal);
      && (r != [] ==> r[0].isFirstInCategory)
      && (forall i :: 0 < i < |r| ==>
            (r[i].isFirstInCategory <==> r[i - 1].task.draftCategory != r[i].task.draftCategory))
      && (forall i :: 0 <= i < |r| ==>
            && r[i].categoryTaskCount == |GroupOf(tasks, r[i].task.draftCategory)|
            && r[i].displayCategory == (if r[i].isFirstInCategory then Some(r[i].task.draftCategory) else None))
  {
    var cs := SortedCategories(tasks, horizontal);
    var g := BlocksOf(tasks, cs);
    var r := Grouped(tasks, horizontal);
    BlocksKeyed(tasks, cs);
    FlattenBoundaries(|cs|, g, BlockIndex(cs), IsFirst);
    FlattenBlocks(|cs|, g, BlockIndex(cs));
    forall i | 0 < i < |r| ensures r[i].isFirstInCategory <==> r[i - 1].task.draftCategory != r[i].task.draftCategory {
      var a := r[i - 1].task.draftCategory;
      var b := r[i].task.draftCategory;
      assert BlockIndex(cs)(r[i - 1]) == Position(cs, a) && BlockIndex(cs)(r[i]) == Position(cs, b);
      assert a in cs && b in cs;
      assert cs[FirstIndex(cs, a)] == a && cs[FirstIndex(cs, b)] == b;
    }
    forall i | 0 <= i < |r|
      ensures r[i].categoryTaskCount == |GroupOf(tasks, r[i].task.draftCategory)|
      ensures r[i].displayCategory == (if r[i].isFirstInCategory then Some(r[i].task.draftCategory) else None)
    {
      GroupedEntry(tasks, horizontal, i);
    }
  }

  /** The entries' categories are among the sorted ones, and their
      positions there never decrease along the grouped list. */
  lemma GroupedPositions(tasks: seq<Task>, horizontal: bool)
    ensures var r := Grouped(tasks, horizontal);
      var cs := SortedCategories(tasks, horizontal);
      && (forall i :: 0 <= i < |r| ==>
            0 <= Position(cs, r[i].task.draftCategory) < |cs| && cs[Position(cs, r[i].task.draftCategory)] == r[i].task.draftCategory)
      && (forall i, j :: 0 <= i <= j < |r| ==> Position(cs, r[i].task.draftCategory) <= Position(cs, r[j].task.draftCategory))
  {
    var cs := SortedCategories(tasks, horizontal);
    var g := BlocksOf(tasks, cs);
    var r := Grouped(tasks, horizontal);
    var b := BlockIndex(cs);
    BlocksKeyed(tasks, cs);
    FlattenBlocks(|cs|, g, b);
    forall i | 0 <= i < |r|
      ensures 0 <= Position(cs, r[i].task.draftCategory) < |cs| && cs[Position(cs, r[i].task.draftCategory)] == r[i].task.draftCategory
    {
      assert b(r[i]) == Position(cs, r[i].task.draftCategory);
      assert r[i].task.draftCategory in cs;
    }
    forall i, j | 0 <= i <= j < |r|
      ensures Position(cs, r[i].task.draftCategory) <= Position(cs, r[j].task.draftCategory)
    {
      assert b(r[i]) == Position(cs, r[i].task.draftCategory);
      assert b(r[j]) == Position(cs, r[j].task.draftCategory);
    }
  }

  /** Groups appear in the order of the sort: an entry never comes after
      one whose category sorts after its own. */
  lemma GroupedOrder(tasks: seq<Task>, horizontal: bool)
    ensures var r := Grouped(tasks, horizontal);
      forall i, j :: 0 <= i < j < |r| && r[i].task.draftCategory != r[j].task.draftCategory ==>
        !CategoryOrder(tasks, horizontal)(r[j].task.draftCategory, r[i].task.draftCategory)
  {
    var cs := SortedCategories(tasks, horizontal);
    var less := CategoryOrder(tasks, horizontal);
    var r := Grouped(tasks, horizontal);
    CategoryOrderStrict(tasks, horizontal);
    InsertionSortSorted(CategoriesOf(tasks), less);
    GroupedPositions(tasks, horizontal);
    OrderFromPositions(r, cs, less);
  }

  /** Entries whose categories sit at non-decreasing positions of a sorted
      list of categories are in that list's order. */
  lemma OrderFromPositions(r: seq<DisplayTask>, cs: seq<string>, less: (string, string) -> bool)
    requires Sorted(cs, less)
    requires forall i :: 0 <= i < |r| ==>
      0 <= Position(cs, r[i].task.draftCategory) < |cs| && cs[Position(cs, r[i].task.draftCategory)] == r[i].task.draftCategory
    requires forall i, j :: 0 <= i <= j < |r| ==> Position(cs, r[i].task.draftCategory) <= Position(cs, r[j].task.draftCategory)
    ensures forall i, j :: 0 <= i < j < |r| && r[i].task.draftCategory != r[j].task.draftCategory ==>
      !less(r[j].task.draftCategory, r[i].task.draftCategory)
  {
    forall i, j | 0 <= i < j < |r| && r[i].task.draftCategory != r[j].task.draftCategory
      ensures !less(r[j].task.draftCategory, r[i].task.draftCategory)
    {
      var p := Position(cs, r[i].task.draftCategory);
      var q := Position(cs, r[j].task.draftCategory);
      assert p < q;
      assert !less(cs[q], cs[p]);
    }
  }

  /** Each group is contiguous: entries of one category are never
      separated by another category's. */
  lemma GroupedContiguous(tasks: seq<Task>, horizontal: bool)
    ensures var r := Grouped(tasks, horizontal);
      forall i, j, k :: 0 <= i < j < k < |r| && r[i].task.draftCategory == r[k].task.draftCategory ==>
        r[j].task.draftCategory == r[i].task.draftCategory
  {
    GroupedPositions(tasks, horizontal);
    ContiguousFromPositions(Grouped(tasks, horizontal), SortedCategories(tasks, horizontal));
  }

  /** Entries whose categories sit at non-decreasing positions of `cs` keep
      each category together. */
  lemma ContiguousFromPositions(r: seq<DisplayTask>, cs: seq<string>)
    requires forall i :: 0 <= i < |r| ==>
      0 <= Position(cs, r[i].task.draftCategory) < |cs| && cs[Position(cs, r[i].task.draftCategory)] == r[i].task.draftCategory
    requires forall i, j :: 0 <= i <= j < |r| ==> Position(cs, r[i].task.draftCategory) <= Position(cs, r[j].task.draftCategory)
    ensures forall i, j, k :: 0 <= i < j < k < |r| && r[i].task.draftCategory == r[k].task.draftCategory ==>
      r[j].task.draftCategory == r[i].task.draftCategory
  {
    forall i, j, k | 0 <= i < j < k < |r| && r[i].task.draftCategory == r[k].task.draftCategory
      ensures r[j].task.draftCategory == r[i].task.draftCategory
    {
      var pi := Position(cs, r[i].task.draftCategory);
      var pj := Position(cs, r[j].task.draftCategory);
      assert pi <= pj <= Position(cs, r[k].task.draftCategory) == pi;
      assert cs[pj] == r[j].task.draftCategory;
    }
  }

  /** For a regular stage the groups are in strictly ascending order of
      their category names. */
  lemma RegularGroupsAscending(tasks: seq<Task>)
    ensures var r := Grouped(tasks, false);
      forall i, j :: 0 <= i < j < |r| && r[i].task.draftCategory != r[j].task.draftCategory ==>
        LexLess(r[i].task.draftCategory, r[j].task.draftCategory)
  {
    var r := Grouped(tasks, false);
    GroupedOrder(tasks, false);
    forall i, j | 0 <= i < j < |r| && r[i].task.draftCategory != r[j].task.draftCategory
      ensures LexLess(r[i].task.draftCategory, r[j].task.draftCategory)
    {
      LexLessTotal(r[i].task.draftCategory, r[j].task.draftCategory);
    }
  }

  function GroupsOf(tasks: seq<Task>, cs: seq<string>): nat -> seq<Task> {
    (p: nat) => if p < |cs| then GroupOf(tasks, cs[p]) else []
  }

  function OnlyGroup(tasks: seq<Task>, cs: seq<string>, c: string): nat -> seq<Task> {
    (p: nat) => if p < |cs| && cs[p] == c then GroupOf(tasks, c) else []
  }

  /** The tasks of a block are its group. */
  lemma BlockTasks(c: string, group: seq<Task>)
    ensures Map(Block(c, group), TaskOf) == group
  {
  }

  /** Without the marks, the grouped list is the groups one after another. */
  lemma GroupedTasks(tasks: seq<Task>, horizontal: bool)
    ensures var cs := SortedCategories(tasks, horizontal);
      Map(Grouped(tasks, horizontal), TaskOf) == Flatten(|cs|, GroupsOf(tasks, cs))
  {
    var cs := SortedCategories(tasks, horizontal);
    forall p | 0 <= p < |cs| ensures GroupsOf(tasks, cs)(p) == Map(BlocksOf(tasks, cs)(p), TaskOf) {
      BlockTasks(cs[p], GroupOf(tasks, cs[p]));
    }
    MapFlatten(|cs|, BlocksOf(tasks, cs), TaskOf, GroupsOf(tasks, cs));
  }

  /** Filtering the groups for category `c` leaves only `c`'s own group. */
  lemma FilterGroups(tasks: seq<Task>, cs: seq<string>, c: string)
    ensures Filter(Flatten(|cs|, GroupsOf(tasks, cs)), InCategory(c)) == Flatten(|cs|, OnlyGroup(tasks, cs, c))
  {
    forall p | 0 <= p < |cs| ensures OnlyGroup(tasks, cs, c)(p) == Filter(GroupsOf(tasks, cs)(p), InCategory(c)) {
      if cs[p] == c {
        FilterIdempotent(tasks, InCategory(c));
      } else {
        FilterNone(GroupOf(tasks, cs[p]), InCategory(c));
      }
    }
    FilterFlatten(|cs|, GroupsOf(tasks, cs), InCategory(c), OnlyGroup(tasks, cs, c));
  }

  /** Over distinct keys that are the categories of the tasks, `c`'s own
      group occurs once, or not at all when `c` has no tasks. */
  lemma OnlyGroupFlatten(tasks: seq<Task>, cs: seq<string>, c: string)
    requires NoDuplicates(cs)
    requires forall x :: x in cs <==> x in CategoriesOf(tasks)
    ensures Flatten(|cs|, OnlyGroup(tasks, cs, c)) == GroupOf(tasks, c)
  {
    var only := OnlyGroup(tasks, cs, c);
    if c in cs {
      var k := FirstIndex(cs, c);
      forall p | 0 <= p < |cs| && p != k ensures only(p) == [] {
        assert cs[p] != cs[k];
      }
      FlattenSingle(|cs|, only, k);
    } else {
      forall p | 0 <= p < |cs| ensures only(p) == [] {
        assert cs[p] in cs;
      }
      FlattenEmpty(|cs|, only);
      CategoriesOfMember(tasks, c);
    }
  }

  /** The tasks of each category appear in the grouped list exactly as in
      the extracted list, in the same relative order. */
  lemma GroupedKeepsGroups(tasks: seq<Task>, horizontal: bool, c: string)
    ensures Filter(Map(Grouped(tasks, horizontal), TaskOf), InCategory(c)) == GroupOf(tasks, c)
  {
    var cs := SortedCategories(tasks, horizontal);
    GroupedTasks(tasks, horizontal);
    FilterGroups(tasks, cs, c);
    OnlyGroupFlatten(tasks, cs, c);
  }

  /** The grouped list holds every extracted task exactly as often as the
      extracted list does: it is a permutation of it. */
  lemma GroupedPermutation(tasks: seq<Task>, horizontal: bool)
    ensures multiset(Map(Grouped(tasks, horizontal), TaskOf)) == multiset(tasks)
  {
    var m := Map(Grouped(tasks, horizontal), TaskOf);
    forall t ensures multiset(m)[t] == multiset(tasks)[t] {
      GroupedKeepsGroups(tasks, horizontal, t.draftCategory);
      FilterMultiplicity(m, InCategory(t.draftCategory), t);
      FilterMultiplicity(tasks, InCategory(t.draftCategory), t);
    }
  }

  // ---------------------------------------------------------------------
  // The grouping as written

  /** The TypeError the `push` on an inherited member throws. */
  const PushError: string := "groupedTasks[category].push is not a function"

  /** One iteration of the grouping loop as written: an inherited member is
      truthy, so no array is created for it and the `push` throws. */
  function AddToGroup(d: map<string, seq<Task>>, inherited: seq<string>, task: Task): Result<map<string, seq<Task>>> {
    match Lookup(d, inherited, task.draftCategory)
    case Own(g) => Success(d[task.draftCategory := g + [task]])
    case Missing => Success(d[task.draftCategory := [task]])
    case Inherited => Failure(PushError)
  }

  /** The grouping loop as written, on an object whose prototype has the
      members `inherited`; the first TypeError ends it. */
  function GroupInto(tasks: seq<Task>, inherited: seq<string>): Result<map<string, seq<Task>>>
    decreases |tasks|
  {
    if tasks == [] then Success(map[])
    else
      var r := GroupInto(tasks[..|tasks| - 1], inherited);
      if r.Failure? then r else AddToGroup(r.value, inherited, tasks[|tasks| - 1])
  }

  /** The grouping as written: `groupedTasks` is a plain object literal. */
  function GroupIntoAsWritten(tasks: seq<Task>): Result<map<string, seq<Task>>> {
    GroupInto(tasks, PrototypeKeys)
  }

  /** Some task has category `c`. */
  predicate HasCategory(tasks: seq<Task>, c: string) {
    exists i :: 0 <= i < |tasks| && tasks[i].draftCategory == c
  }

  /** When it does not throw, the loop has a key for every category of
      the tasks and no other. */
  lemma {:induction false} GroupIntoKeys(tasks: seq<Task>, inherited: seq<string>)
    requires GroupInto(tasks, inherited).Success?
    ensures forall c :: c in GroupInto(tasks, inherited).value <==> HasCategory(tasks, c)
    decreases |tasks|
  {
    if tasks != [] {
      var n := |tasks| - 1;
      var init := tasks[..n];
      GroupIntoKeys(init, inherited);
      var d0 := GroupInto(init, inherited).value;
      var d := GroupInto(tasks, inherited).value;
      assert AddToGroup(d0, inherited, tasks[n]) == Success(d);
      forall c ensures c in d <==> HasCategory(tasks, c) {
        if HasCategory(tasks, c) {
          var i :| 0 <= i < |tasks| && tasks[i].draftCategory == c;
          if i < n { assert init[i] == tasks[i]; }
        }
        if HasCategory(init, c) {
          var i :| 0 <= i < n && init[i].draftCategory == c;
          assert init[i] == tasks[i];
        }
      }
    }
  }

  /** ... and each key holds the tasks of its category, in order. */
  lemma {:induction false} GroupIntoValues(tasks: seq<Task>, inherited: seq<string>)
    requires GroupInto(tasks, inherited).Success?
    ensures forall c :: c in GroupInto(tasks, inherited).value ==> GroupInto(tasks, inherited).value[c] == GroupOf(tasks, c)
    decreases |tasks|
  {
    if tasks != [] {
      var n := |tasks| - 1;
      var init := tasks[..n];
      GroupIntoValues(init, inherited);
      var d0 := GroupInto(init, inherited).value;
      var d := GroupInto(tasks, inherited).value;
      assert AddToGroup(d0, inherited, tasks[n]) == Success(d);
      assert tasks[..n + 1] == tasks;
      forall c | c in d ensures d[c] == GroupOf(tasks, c) {
        GroupOfStep(tasks, n, c);
        if c == tasks[n].draftCategory && c !in d0 {
          GroupIntoKeys(init, inherited);
          CategoriesOfMember(init, c);
        }
      }
    }
  }

  /** The loop throws exactly when some task's category is an inherited
      member's name. */
  lemma {:induction false} GroupIntoFails(tasks: seq<Task>, inherited: seq<string>)
    ensures GroupInto(tasks, inherited).Failure? <==>
      exists i :: 0 <= i < |tasks| && tasks[i].draftCategory in inherited
    decreases |tasks|
  {
    if tasks != [] {
      var n := |tasks| - 1;
      var init := tasks[..n];
      GroupIntoFails(init, inherited);
      if GroupInto(init, inherited).Success? {
        GroupIntoKeys(init, inherited);
        assert forall i :: 0 <= i < n ==> init[i] == tasks[i];
      } else {
        var i :| 0 <= i < n && init[i].draftCategory in inherited;
        assert tasks[i] == init[i];
      }
    }
  }

  /** The only error the loop raises is the TypeError of the `push`. */
  lemma {:induction false} GroupIntoError(tasks: seq<Task>, inherited: seq<string>)
    requires GroupInto(tasks, inherited).Failure?
    ensures GroupInto(tasks, inherited).error == PushError
    decreases |tasks|
  {
    var init := tasks[..|tasks| - 1];
    if GroupInto(init, inherited).Failure? {
      GroupIntoError(init, inherited);
    }
  }

  /** Some task's category is the name of an `Object.prototype` member. */
  predicate HasInheritedCategory(tasks: seq<Task>) {
    exists i :: 0 <= i < |tasks| && tasks[i].draftCategory in PrototypeKeys
  }

  /** As written, the grouping throws exactly when some task's category is
      the name of an `Object.prototype` member; otherwise it agrees with the
      corrected grouping's groups. */
  lemma GroupIntoAsWrittenSpec(tasks: seq<Task>)
    ensures GroupIntoAsWritten(tasks).Failure? <==> HasInheritedCategory(tasks)
    ensures GroupIntoAsWritten(tasks).Failure? ==> GroupIntoAsWritten(tasks).error == PushError
    ensures GroupIntoAsWritten(tasks).Success? ==>
      var d := GroupIntoAsWritten(tasks).value;
      && (forall c :: c in d <==> c in CategoriesOf(tasks))
      && (forall c :: c in d ==> d[c] == GroupOf(tasks, c))
  {
    GroupIntoFails(tasks, PrototypeKeys);
    if GroupIntoAsWritten(tasks).Failure? {
      GroupIntoError(tasks, PrototypeKeys);
    } else {
      GroupIntoKeys(tasks, PrototypeKeys);
      GroupIntoValues(tasks, PrototypeKeys);
      forall c {
        CategoriesOfMember(tasks, c);
      }
    }
  }

  /** A single task whose category is "constructor" makes the grouping
      throw, so `fetchTasks` shows an error instead of the task. */
  lemma ConstructorCategoryBreaksGrouping(t: Task)
    requires t.draftCategory == "constructor"
    ensures GroupIntoAsWritten([t]) == Failure(PushError)
  {
    assert [t][..0] == [];
    assert GroupInto([t][..0], PrototypeKeys) == Success(map[]);
    assert "constructor" in PrototypeKeys;
    assert AddToGroup(map[], PrototypeKeys, t) == Failure(PushError);
  }

  /** The corrected grouping handles the same task: one group with the task. */
  lemma ConstructorCategoryGroupedCorrectly(t: Task, horizontal: bool)
    requires t.draftCategory == "constructor"
    ensures Grouped([t], horizontal) == [DisplayTask(t, true, 1, Some("constructor"))]
  {
    var tasks := [t];
    assert Map(tasks, CategoryOfTask) == ["constructor"];
    assert CategoriesOf(tasks) == ["constructor"];
    assert GroupOf(tasks, "constructor") == [t];
    var cs := SortedCategories(tasks, horizontal);
    assert cs == ["constructor"];
    assert Block("constructor", [t]) == [DisplayTask(t, true, 1, Some("constructor"))];
  }

  // ---------------------------------------------------------------------
  // fetchTasks

  /** The table's `tasks` and `error` state. */
  datatype TableState = TableState(tasks: seq<DisplayTask>, error: Option<string>)

  /** The TypeError `stageName.toLowerCase()` throws for a stage name that is
      not a string. `Null` merges a missing and a `null` name; the message is
      the one for `undefined` (for `null` it reads "of null" instead). */
  function NameError(name: Cell): string {
    if name.Null? then "Cannot read properties of undefined (reading 'toLowerCase')"
    else "stageName.toLowerCase is not a function"
  }

  /** The tasks extracted from a stage's rows, by the layout its name selects. */
  function ExtractedTasks(stageData: seq<Row>, stageName: string, partyName: string): seq<Task> {
    if IsHorizontalCategoryStage(stageName) then HorizontalTasksFor(stageData, partyName)
    else RegularTasks(stageData, partyName)
  }

  /** `fetchTasks`: without a party or a stage the list is emptied; otherwise
      the stage's rows are requested (`fetch` stands for the request), their
      tasks extracted and grouped, so the group order, contiguity and marks
      that `GroupedOrder`, `GroupedContiguous` and `GroupedMarks` state hold
      for the new list. A failure keeps the previous list and shows the
      message; the grouping as written fails for a category named after an
      `Object.prototype` member. */
  function FetchTasks(state: TableState, party: Option<Party>, stageName: Option<Cell>, fetch: Cell -> Result<seq<Row>>): (s: TableState)
    ensures party.None? || stageName.None? ==> s == TableState([], state.error)
    ensures party.Some? && stageName.Some? && fetch(stageName.value).Failure? ==>
      s == TableState(state.tasks, Some(fetch(stageName.value).error))
    ensures party.Some? && stageName.Some? && fetch(stageName.value).Success? && !stageName.value.Str? ==>
      s == TableState(state.tasks, Some(NameError(stageName.value)))
    ensures party.Some? && stageName.Some? && fetch(stageName.value).Success? && stageName.value.Str? ==>
      var extracted := ExtractedTasks(fetch(stageName.value).value, stageName.value.s, party.value.name);
      && (HasInheritedCategory(extracted) ==> s == TableState(state.tasks, Some(PushError)))
      && (!HasInheritedCategory(extracted) ==>
            && s.error == None
            && s.tasks == Grouped(extracted, IsHorizontalCategoryStage(stageName.value.s))
            && multiset(Map(s.tasks, TaskOf)) == multiset(extracted)
            && (forall c :: Filter(Map(s.tasks, TaskOf), InCategory(c)) == GroupOf(extracted, c)))
  {
    if party.None? || stageName.None? then TableState([], state.error)
    else
      match fetch(stageName.value)
      case Failure(e) => TableState(state.tasks, Some(e))
      case Success(stageData) =>
        match stageName.value
        case Str(name) =>
          var extracted := ExtractedTasks(stageData, name, party.value.name);
          var horizontal := IsHorizontalCategoryStage(name);
          GroupIntoAsWrittenSpec(extracted);
          if GroupIntoAsWritten(extracted).Failure? then TableState(state.tasks, Some(GroupIntoAsWritten(extracted).error))
          else
            GroupedPermutation(extracted, horizontal);
            assert forall c :: Filter(Map(Grouped(extracted, horizontal), TaskOf), InCategory(c)) == GroupOf(extracted, c) by {
              forall c ensures Filter(Map(Grouped(extracted, horizontal), TaskOf), InCategory(c)) == GroupOf(extracted, c) {
                GroupedKeepsGroups(extracted, horizontal, c);
              }
            }
            TableState(Grouped(extracted, horizontal), None)
        case _ => TableState(state.tasks, Some(NameError(stageName.value)))
  }

  // ---------------------------------------------------------------------
  // Filters and suggestion lists

  /** The three conditions of `filteredTasks`: category and name contain the
      filter text ignoring case, the status equals the status filter; an
      empty filter accepts everything. */
  predicate MatchesFilters(t: Task, categoryFilter: string, nameFilter: string, statusFilter: string) {
    && (categoryFilter == "" || Contains(Lower(t.draftCategory), Lower(categoryFilter)))
    && (nameFilter == "" || Contains(Lower(t.name), Lower(nameFilter)))
    && (statusFilter == "" || t.status == statusFilter)
  }

  function FilterMatcher(categoryFilter: string, nameFilter: string, statusFilter: string): DisplayTask -> bool {
    (d: DisplayTask) => MatchesFilters(d.task, categoryFilter, nameFilter, statusFilter)
  }

  /** `filteredTasks`. */
  function FilteredTasks(tasks: seq<DisplayTask>, categoryFilter: string, nameFilter: string, statusFilter: string): (r: seq<DisplayTask>)
    ensures forall d :: d in r <==> d in tasks && MatchesFilters(d.task, categoryFilter, nameFilter, statusFilter)
  {
    Filter(tasks, FilterMatcher(categoryFilter, nameFilter, statusFilter))
  }

  /** The filtered list keeps the order of the list. */
  lemma FilteredTasksSubsequence(tasks: seq<DisplayTask>, categoryFilter: string, nameFilter: string, statusFilter: string)
    ensures IsSubsequence(FilteredTasks(tasks, categoryFilter, nameFilter, statusFilter), tasks)
  {
    FilterIsSubsequence(tasks, FilterMatcher(categoryFilter, nameFilter, statusFilter));
  }

  /** With all three filters empty, every task is shown. */
  lemma FilteredTasksUnfiltered(tasks: seq<DisplayTask>)
    ensures FilteredTasks(tasks, "", "", "") == tasks
  {
    FilterKeepsAll(tasks, FilterMatcher("", "", ""));
  }

  /** Filtering again with the same filters changes nothing. */
  lemma FilteredTasksIdempotent(tasks: seq<DisplayTask>, categoryFilter: string, nameFilter: string, statusFilter: string)
    ensures var r := FilteredTasks(tasks, categoryFilter, nameFilter, statusFilter);
      FilteredTasks(r, categoryFilter, nameFilter, statusFilter) == r
  {
    FilterIdempotent(tasks, FilterMatcher(categoryFilter, nameFilter, statusFilter));
  }

  /** The `=== ''` tests of the two text filters only short-cut: every string
      contains the empty string, so the filters are plain substring tests. */
  lemma TextFiltersAreSubstringTests(t: Task, categoryFilter: string, nameFilter: string, statusFilter: string)
    ensures MatchesFilters(t, categoryFilter, nameFilter, statusFilter) <==>
      && Contains(Lower(t.draftCategory), Lower(categoryFilter))
      && Contains(Lower(t.name), Lower(nameFilter))
      && (statusFilter == "" || t.status == statusFilter)
  {
    ContainsEmpty(Lower(t.draftCategory));
    ContainsEmpty(Lower(t.name));
  }

  /** The default string order of `sort()`. */
  function StringOrder(): (string, string) -> bool {
    (a: string, b: string) => LexLess(a, b)
  }

  /** `[...new Set(values)].sort()`: the distinct values in strictly
      ascending order. */
  function UniqueSorted(values: seq<string>): (r: seq<string>)
    ensures forall x :: x in r <==> x in values
    ensures forall i, j :: 0 <= i < j < |r| ==> LexLess(r[i], r[j])
  {
    var r := InsertionSort(Distinct(values), StringOrder());
    assert StrictOrder(StringOrder()) by {
      forall a ensures !StringOrder()(a, a) {
        LexLessIrreflexive(a);
      }
      forall a, b, c | StringOrder()(a, b) && StringOrder()(b, c) ensures StringOrder()(a, c) {
        LexLessTransitive(a, b, c);
      }
    }
    InsertionSortSorted(Distinct(values), StringOrder());
    forall i, j | 0 <= i < j < |r| ensures LexLess(r[i], r[j]) {
      LexLessTotal(r[i], r[j]);
    }
    r
  }

  function DraftCategoryOf(d: DisplayTask): string {
    d.task.draftCategory
  }

  function NameOf(d: DisplayTask): string {
    d.task.name
  }

  function StatusOfTask(d: DisplayTask): string {
    d.task.status
  }

  /** `uniqueDraftCategories`. */
  function UniqueDraftCategories(tasks: seq<DisplayTask>): (r: seq<string>)
    ensures forall c :: c in r <==> exists i :: 0 <= i < |tasks| && tasks[i].task.draftCategory == c
    ensures forall i, j :: 0 <= i < j < |r| ==> LexLess(r[i], r[j])
  {
    var m := Map(tasks, DraftCategoryOf);
    assert forall c :: c in m <==> exists i :: 0 <= i < |tasks| && tasks[i].task.draftCategory == c by {
      forall c | c in m ensures exists i :: 0 <= i < |tasks| && tasks[i].task.draftCategory == c {
        var i :| 0 <= i < |m| && m[i] == c;
      }
    }
    UniqueSorted(m)
  }

  /** `uniqueTaskNames`. */
  function UniqueTaskNames(tasks: seq<DisplayTask>): (r: seq<string>)
    ensures forall c :: c in r <==> exists i :: 0 <= i < |tasks| && tasks[i].task.name == c
    ensures forall i, j :: 0 <= i < j < |r| ==> LexLess(r[i], r[j])
  {
    var m := Map(tasks, NameOf);
    assert forall c :: c in m <==> exists i :: 0 <= i < |tasks| && tasks[i].task.name == c by {
      forall c | c in m ensures exists i :: 0 <= i < |tasks| && tasks[i].task.name == c {
        var i :| 0 <= i < |m| && m[i] == c;
      }
    }
    UniqueSorted(m)
  }

  /** `uniqueStatuses`. */
  function UniqueStatuses(tasks: seq<DisplayTask>): (r: seq<string>)
    ensures forall c :: c in r <==> exists i :: 0 <= i < |tasks| && tasks[i].task.status == c
    ensures forall i, j :: 0 <= i < j < |r| ==> LexLess(r[i], r[j])
  {
    var m := Map(tasks, StatusOfTask);
    assert forall c :: c in m <==> exists i :: 0 <= i < |tasks| && tasks[i].task.status == c by {
      forall c | c in m ensures exists i :: 0 <= i < |tasks| && tasks[i].task.status == c {
        var i :| 0 <= i < |m| && m[i] == c;
      }
    }
    UniqueSorted(m)
  }

  function OptionMatcher(filter: string): string -> bool {
    (x: string) => Contains(Lower(x), Lower(filter))
  }

  /** `filteredCategoryOptions` / `filteredTaskNameOptions`: the suggestions
      containing the filter text, ignoring case; all of them for an empty
      filter. */
  function FilteredOptions(options: seq<string>, filter: string): (r: seq<string>)
    ensures forall x :: x in r <==> x in options && Contains(Lower(x), Lower(filter))
  {
    if filter == [] then
      assert forall x :: Contains(Lower(x), Lower(filter)) by {
        forall x ensures Contains(Lower(x), Lower(filter)) {
          ContainsEmpty(Lower(x));
        }
      }
      options
    else Filter(options, OptionMatcher(filter))
  }

  /** The suggestions keep the order of the options, so sorted suggestions
      stay sorted. */
  lemma FilteredOptionsSubsequence(options: seq<string>, filter: string)
    ensures IsSubsequence(FilteredOptions(options, filter), options)
  {
    if filter == [] {
      FilterKeepsAll(options, (x: string) => true);
      FilterIsSubsequence(options, (x: string) => true);
    } else {
      FilterIsSubsequence(options, OptionMatcher(filter));
    }
  }

  // ---------------------------------------------------------------------
  // Status colours

  const CompletedColor: string := "bg-green-100 text-green-800"
  const ProgressColor: string := "bg-blue-100 text-blue-800"
  const PendingColor: string := "bg-yellow-100 text-yellow-800"
  const OtherColor: string := "bg-gray-100 text-gray-800"

  /** Some of `words` occurs in `s`. */
  predicate MentionsAny(s: string, words: seq<string>) {
    exists k :: 0 <= k < |words| && Contains(s, words[k])
  }

  const CompletedMarks: seq<string> := ["completed", "done", "finished"]
  const ProgressMarks: seq<string> := ["progress", "ongoing", "working"]
  const PendingMarks: seq<string> := ["pending", "waiting", "not set"]

  /** `getStatusColor`: the first of the three word groups found in the
      lower-cased status decides the colour. */
  function StatusColor(status: string): (r: string)
    ensures r in [CompletedColor, ProgressColor, PendingColor, OtherColor]
    ensures r == CompletedColor <==> MentionsAny(Lower(status), CompletedMarks)
    ensures r == OtherColor <==>
      !MentionsAny(Lower(status), CompletedMarks) && !MentionsAny(Lower(status), ProgressMarks) && !MentionsAny(Lower(status), PendingMarks)
    ensures r == ProgressColor <==> !MentionsAny(Lower(status), CompletedMarks) && MentionsAny(Lower(status), ProgressMarks)
    ensures r == PendingColor <==>
      !MentionsAny(Lower(status), CompletedMarks) && !MentionsAny(Lower(status), ProgressMarks) && MentionsAny(Lower(status), PendingMarks)
  {
    var l := Lower(status);
    if MentionsAny(l, CompletedMarks) then CompletedColor
    else if MentionsAny(l, ProgressMarks) then ProgressColor
    else if MentionsAny(l, PendingMarks) then PendingColor
    else OtherColor
  }

  /** The colour does not depend on letter case. */
  lemma StatusColorIgnoresCase(status: string)
    ensures StatusColor(Upper(status)) == StatusColor(status)
    ensures StatusColor(Lower(status)) == StatusColor(status)
  {
    LowerUpper(status);
    SameLowerSameColor(Upper(status), status);
    LowerIdempotent(status);
    SameLowerSameColor(Lower(status), status);
  }

  lemma SameLowerSameColor(a: string, b: string)
    requires Lower(a) == Lower(b)
    ensures StatusColor(a) == StatusColor(b)
  {
  }

  /** Text around a status never changes a completed colour. */
  lemma StatusColorCompletedExtends(a: string, status: string, b: string)
    requires StatusColor(status) == CompletedColor
    ensures StatusColor(a + status + b) == CompletedColor
  {
    var k :| 0 <= k < |CompletedMarks| && Contains(Lower(status), CompletedMarks[k]);
    LowerAppend(a, status);
    LowerAppend(a + status, b);
    ContainsExtends(Lower(a), Lower(status), Lower(b), CompletedMarks[k]);
    assert Contains(Lower(a + status + b), CompletedMarks[k]);
  }

  lemma LowerPending()
    ensures Lower("Pending") == "pending"
  {
    var l := Lower("Pending");
    assert l[0] == 'p' && l[1] == 'e' && l[2] == 'n' && l[3] == 'd' && l[4] == 'i' && l[5] == 'n' && l[6] == 'g';
  }

  /** `s` does not contain `w` when `w` occurs nowhere in it. */
  lemma NotContained(s: string, w: string)
    requires forall i :: !OccursAt(s, w, i)
    ensures !Contains(s, w)
  {
    ContainsIff(s, w);
  }

  lemma PendingMarksOnly()
    ensures !MentionsAny("pending", CompletedMarks) && !MentionsAny("pending", ProgressMarks)
    ensures MentionsAny("pending", PendingMarks)
  {
    var l := "pending";
    forall i ensures !OccursAt(l, "done", i) {
      if 0 <= i && i + 4 <= |l| {
        assert l[i..i + 4][1] == l[i + 1];
      }
    }
    NotContained(l, "done");
    assert !Contains(l, CompletedMarks[0]) && !Contains(l, CompletedMarks[1]) && !Contains(l, CompletedMarks[2]);
    forall i ensures !OccursAt(l, "ongoing", i) && !OccursAt(l, "working", i) {
      if 0 <= i && i + 7 <= |l| {
        assert l[i..i + 7][0] == l[i];
      }
    }
    NotContained(l, "ongoing");
    NotContained(l, "working");
    assert !Contains(l, ProgressMarks[0]) && !Contains(l, ProgressMarks[1]) && !Contains(l, ProgressMarks[2]);
    assert OccursAt(l, PendingMarks[0], 0);
    ContainsFromOccurrence(l, PendingMarks[0], 0);
  }

  /** A task without a status shows the default "Pending" in yellow. */
  lemma DefaultStatusColor()
    ensures StatusColor("Pending") == PendingColor
  {
    LowerPending();
    PendingMarksOnly();
  }
}
