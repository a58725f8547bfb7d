/** The second stage-list variant (components/party-stages-table.jsx): the
    same per-stage summary as the stage table, but the party name is read
    from the third column first and compared exactly, the status is looked
    up under eleven field names, and two more words count as complete. */
module PartyStagesTable {
  import opened Strings
  import opened Lists
  import opened Sheet
  import StageTable

  /** The header variants tried after the third value, in order. */
  const PartyHeaders: seq<string> := ["Party Name", "party", "Party", "PARTY NAME", "PartyName", "party_name"]

  /** The party name of a row: the third value if truthy, otherwise the
      first truthy header variant; `Null` when none is. */
  function PartyNameOf(row: Row): (c: Cell)
    ensures Truthy(c) || c == Null
  {
    Or(ValueAt(row, 2), FirstTruthyOf(row, PartyHeaders))
  }

  /** The lookup of the filter: the third value, then each header variant
      until one is truthy. */
  method ResolvePartyName(row: Row) returns (name: Cell)
    ensures name == PartyNameOf(row)
  {
    name := Null;
    if |row| > 2 && Truthy(row[2].1) {
      name := row[2].1;
    }
    if !Truthy(name) {
      var k := 0;
      while k < |PartyHeaders|
        invariant 0 <= k <= |PartyHeaders|
        invariant name == Null
        invariant FirstTruthyOf(row, PartyHeaders) == FirstTruthyOf(row, PartyHeaders[k..])
      {
        FirstTruthyOfStep(row, PartyHeaders, k);
        if Truthy(Get(row, PartyHeaders[k])) {
          name := Get(row, PartyHeaders[k]);
          break;
        }
        k := k + 1;
      }
    }
  }

  /** The filter predicate: the row's party name, trimmed, equals the
      selected party's name exactly. */
  predicate IsPartyTask(row: Row, partyName: string) {
    var c := PartyNameOf(row);
    Truthy(c) && Trim(ToStr(c)) == partyName
  }

  function PartyTaskMatcher(partyName: string): Row -> bool {
    row => IsPartyTask(row, partyName)
  }

  function PartyTasks(rows: seq<Row>, partyName: string): (r: seq<Row>)
    ensures forall row :: row in r <==> row in rows && IsPartyTask(row, partyName)
  {
    Filter(rows, PartyTaskMatcher(partyName))
  }

  /** The selected party's name is not trimmed: a name with surrounding
      spaces matches no row at all. */
  lemma UntrimmedNameMatchesNothing(rows: seq<Row>, partyName: string)
    requires Trim(partyName) != partyName
    ensures PartyTasks(rows, partyName) == []
  {
    forall row | row in rows ensures !PartyTaskMatcher(partyName)(row) {
      TrimIdempotent(ToStr(PartyNameOf(row)));
    }
    FilterNone(rows, PartyTaskMatcher(partyName));
  }

  /** The two variants resolve party names in opposite orders: a row whose
      `PartyName` and third value disagree belongs to different parties. */
  lemma ResolutionOrderDiffers()
    ensures var row := [("PartyName", Str("North")), ("Serial", Num(1)), ("Column C", Str("South"))];
      StageTable.PartyNameOf(row) == Str("North") && PartyNameOf(row) == Str("South")
  {
  }

  /** The status fields tried in order. */
  const StatusFields: seq<string> := ["Status", "status", "STATUS", "State", "state", "Progress", "progress", "Complete", "complete", "Done", "done"]

  /** The status of a row: the first truthy of the status fields, with no
      fallback to a column position. */
  function StatusOf(row: Row): (c: Cell)
    ensures Truthy(c) || c == Null
  {
    FirstTruthyOf(row, StatusFields)
  }

  /** The status loop with its `break`. */
  method ResolveStatus(row: Row) returns (status: Cell)
    ensures status == StatusOf(row)
  {
    status := Null;
    var k := 0;
    while k < |StatusFields|
      invariant 0 <= k <= |StatusFields|
      invariant status == Null
      invariant FirstTruthyOf(row, StatusFields) == FirstTruthyOf(row, StatusFields[k..])
    {
      FirstTruthyOfStep(row, StatusFields, k);
      if Truthy(Get(row, StatusFields[k])) {
        status := Get(row, StatusFields[k]);
        break;
      }
      k := k + 1;
    }
  }

  const CompletedWords: seq<string> := ["completed", "done", "finished", "complete", "100%", "yes", "y", "1", "true"]

  predicate IsCompletedStatus(c: Cell) {
    Truthy(c) && Trim(Lower(ToStr(c))) in CompletedWords
  }

  predicate IsCompletedRow(row: Row) {
    IsCompletedStatus(StatusOf(row))
  }

  /** Every status the stage table counts as complete is counted here too. */
  lemma CompletionWordsExtend(c: Cell)
    requires StageTable.IsCompletedStatus(c)
    ensures IsCompletedStatus(c)
  {
    var w := Trim(Lower(ToStr(c)));
    assert w in StageTable.CompletedWords;
  }

  /** ... and the status `true` is counted here but not there. */
  lemma TrueCountsOnlyHere()
    ensures IsCompletedStatus(Bool(true)) && !StageTable.IsCompletedStatus(Bool(true))
  {
    LowerTrue();
    TrimNoSpaces("true");
    var w := Trim(Lower(ToStr(Bool(true))));
    assert w == "true";
    assert w == CompletedWords[8];
    forall k | 0 <= k < |StageTable.CompletedWords| ensures StageTable.CompletedWords[k] != w {
      assert |StageTable.CompletedWords[k]| != 4 || StageTable.CompletedWords[k][0] != 't';
    }
  }

  lemma LowerTrue()
    ensures Lower("true") == "true"
  {
    var l := Lower("true");
    assert l[0] == 't' && l[1] == 'r' && l[2] == 'u' && l[3] == 'e';
  }

  /** The number of the rows whose status is a completion word. */
  function CompletedCount(rows: seq<Row>): (n: nat)
    ensures n <= |rows|
    ensures n == |Filter(rows, IsCompletedRow)|
  {
    CountFilter(rows, IsCompletedRow);
    Count(rows, IsCompletedRow)
  }

  /** The `forEach` over the party's rows that increments `completedTasks`. */
  method CountCompleted(rows: seq<Row>) returns (completed: nat)
    ensures completed == CompletedCount(rows)
  {
    completed := 0;
    var i := 0;
    while i < |rows|
      invariant 0 <= i <= |rows|
      invariant completed == Count(rows[..i], IsCompletedRow)
    {
      var status := ResolveStatus(rows[i]);
      CountStep(rows, i, IsCompletedRow);
      if IsCompletedStatus(status) {
        completed := completed + 1;
      }
      i := i + 1;
    }
    assert rows[..|rows|] == rows;
  }

  /** The record of one stage; unlike the stage table's it carries neither
      the party name nor an error message. */
  datatype StageRecord = StageRecord(
    id: nat, name: Cell, totalTasks: nat, completed: nat, progress: real, partyTasks: seq<Row>)

  function StageResult(stageName: Cell, index: nat, response: Result<seq<Row>>, partyName: string): (s: StageRecord)
    ensures s.id == index + 1 && s.name == stageName
    ensures s.completed <= s.totalTasks == |s.partyTasks|
    ensures s.totalTasks == 0 ==> s.progress == 0.0
    ensures response.Failure? ==> s.totalTasks == 0 && s.completed == 0 && s.progress == 0.0 && s.partyTasks == []
    ensures response.Success? ==> s.partyTasks == PartyTasks(response.value, partyName)
  {
    match response
    case Failure(_) =>
      StageRecord(index + 1, stageName, 0, 0, 0.0, [])
    case Success(rows) =>
      var tasks := PartyTasks(rows, partyName);
      var completed := CompletedCount(tasks);
      StageRecord(index + 1, stageName, |tasks|, completed, StageTable.Progress(completed, |tasks|), tasks)
  }

  /** `fetchPartyStages`: one record per entry of `stagesPresent`, in order. */
  function FetchPartyStages(party: Option<Party>, fetch: Cell -> Result<seq<Row>>): (r: seq<StageRecord>)
    ensures party.None? || party.value.stagesPresent == [] ==> r == []
    ensures party.Some? ==> |r| == |party.value.stagesPresent|
  {
    if party.None? || party.value.stagesPresent == [] then []
    else
      var stages := party.value.stagesPresent;
      seq(|stages|, i requires 0 <= i < |stages| => StageResult(stages[i], i, fetch(stages[i]), party.value.name))
  }

  /** Each record depends on its own stage's response only and sits at that
      stage's position. */
  lemma FetchPartyStagesIndependent(party: Party, fetch: Cell -> Result<seq<Row>>, i: nat)
    requires i < |party.stagesPresent|
    ensures var r := FetchPartyStages(Some(party), fetch);
      && r[i] == StageResult(party.stagesPresent[i], i, fetch(party.stagesPresent[i]), party.name)
      && r[i].id == i + 1 && r[i].name == party.stagesPresent[i]
  {
  }

  /** The counts of a fetched stage. */
  lemma StageResultCounts(stageName: Cell, index: nat, rows: seq<Row>, partyName: string)
    ensures var s := StageResult(stageName, index, Success(rows), partyName);
      && s.totalTasks == |Filter(rows, PartyTaskMatcher(partyName))|
      && s.completed == |Filter(s.partyTasks, IsCompletedRow)|
      && IsSubsequence(s.partyTasks, rows)
  {
    var s := StageResult(stageName, index, Success(rows), partyName);
    FilterIsSubsequence(rows, PartyTaskMatcher(partyName));
  }

  /** What a stage selection passes on: the stage plus the party's name and
      id, with `tasks` set to the party's rows. */
  datatype StageSelection = StageSelection(stage: StageRecord, partyName: string, partyId: int, tasks: seq<Row>)

  function HandleStageSelect(stage: StageRecord, party: Party): (r: StageSelection)
    ensures r.stage == stage && r.partyName == party.name && r.partyId == party.id && r.tasks == stage.partyTasks
  {
    StageSelection(stage, party.name, party.id, stage.partyTasks)
  }

  /** The rows passed on with a selected stage all belong to the party. */
  lemma HandleStageSelectPartyRows(party: Party, fetch: Cell -> Result<seq<Row>>, i: nat)
    requires i < |party.stagesPresent|
    ensures var sel := HandleStageSelect(FetchPartyStages(Some(party), fetch)[i], party);
      forall row :: row in sel.tasks ==> IsPartyTask(row, party.name)
  {
  }
}
