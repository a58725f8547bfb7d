/** The stage list of a selected party (components/stage-table.jsx): for
    every stage the party appears in, the rows that belong to the party and
    how many of them are complete. */
module StageTable {
  import opened Strings
  import opened Lists
  import opened Sheet

  /** The header variants tried after `PartyName`, in order. */
  const PartyHeaders: seq<string> := ["Party Name", "party", "Party", "PARTY NAME", "party_name"]

  /** The party name of a row: `PartyName`, then the header variants, then
      the third value, whichever is truthy first; `Null` when none is. */
  function PartyNameOf(row: Row): (c: Cell)
    ensures Truthy(c) || c == Null
  {
    Or(FirstTruthyOf(row, ["PartyName"] + PartyHeaders), ValueAt(row, 2))
  }

  /** The lookup of the filter: the standard key, then each header variant
      until one is truthy (the loop with its `break`), then the third value. */
  method ResolvePartyName(row: Row) returns (name: Cell)
    ensures name == PartyNameOf(row)
  {
    name := Null;
    if Truthy(Get(row, "PartyName")) {
      name := Get(row, "PartyName");
    }
    if !Truthy(name) {
      assert (["PartyName"] + PartyHeaders)[1..] == PartyHeaders;
      var k := 0;
      while k < |PartyHeaders|
        invariant 0 <= k <= |PartyHeaders|
        invariant name == Null
        invariant FirstTruthyOf(row, ["PartyName"] + PartyHeaders) == FirstTruthyOf(row, PartyHeaders[k..])
      {
        FirstTruthyOfStep(row, PartyHeaders, k);
        if Truthy(Get(row, PartyHeaders[k])) {
          name := Get(row, PartyHeaders[k]);
          break;
        }
        k := k + 1;
      }
    }
    if !Truthy(name) {
      if |row| > 2 && Truthy(row[2].1) {
        name := row[2].1;
      }
    }
  }

  /** The filter predicate: the row's party name, trimmed and upper-cased,
      equals the selected party's name trimmed and upper-cased. */
  predicate IsPartyTask(row: Row, partyName: string) {
    var c := PartyNameOf(row);
    Truthy(c) && Upper(Trim(ToStr(c))) == Upper(Trim(partyName))
  }

  function PartyTaskMatcher(partyName: string): Row -> bool {
    row => IsPartyTask(row, partyName)
  }

  /** `stageInfo.filter(...)`: the party's rows of one stage. */
  function PartyTasks(rows: seq<Row>, partyName: string): (r: seq<Row>)
    ensures forall row :: row in r <==> row in rows && IsPartyTask(row, partyName)
  {
    Filter(rows, PartyTaskMatcher(partyName))
  }

  /** The party's rows keep the order of the stage's rows. */
  lemma PartyTasksSubsequence(rows: seq<Row>, partyName: string)
    ensures IsSubsequence(PartyTasks(rows, partyName), rows)
  {
    FilterIsSubsequence(rows, PartyTaskMatcher(partyName));
  }

  /** Case and surrounding spaces of either name do not matter: a row
      matches a name exactly when it matches the upper-cased, trimmed name. */
  lemma IsPartyTaskNormalised(row: Row, partyName: string)
    ensures IsPartyTask(row, partyName) <==> IsPartyTask(row, Upper(Trim(partyName)))
  {
    TrimIdempotent(partyName);
    UpperTrimCommute(Trim(partyName));
    UpperIdempotent(Trim(partyName));
  }

  lemma {:induction false} UpperIdempotent(s: string)
    ensures Upper(Upper(s)) == Upper(s)
  {
    var u := Upper(s);
    assert forall i :: 0 <= i < |s| ==> UpperChar(u[i]) == u[i];
  }

  lemma UpperCharSpace(c: char)
    requires !IsSpace(c)
    ensures !IsSpace(UpperChar(c))
  {
  }

  /** Upper-casing a string without surrounding spaces gives one without
      surrounding spaces, because only ASCII letters change. */
  lemma UpperTrimCommute(s: string)
    requires Trim(s) == s
    ensures Trim(Upper(s)) == Upper(s)
  {
    TrimSpec(s);
    var u := Upper(s);
    if s != [] {
      UpperCharSpace(s[0]);
      UpperCharSpace(s[|s| - 1]);
    }
    TrimNoSpaces(u);
  }

  /** The status of a row: `Status`, `Azure Status`, `status`, then the 11th
      value, whichever is truthy first. */
  function StatusOf(row: Row): Cell {
    Or(FirstTruthyOf(row, ["Status", "Azure Status", "status"]), ValueAt(row, 10))
  }

  /** The named fields win in their order; the 11th value is read only when
      none of them is truthy, and the status is `Null` when nothing is. */
  lemma StatusOfSpec(row: Row)
    ensures Truthy(Get(row, "Status")) ==> StatusOf(row) == Get(row, "Status")
    ensures !Truthy(Get(row, "Status")) && Truthy(Get(row, "Azure Status")) ==> StatusOf(row) == Get(row, "Azure Status")
    ensures !Truthy(Get(row, "Status")) && !Truthy(Get(row, "Azure Status")) && Truthy(Get(row, "status")) ==>
      StatusOf(row) == Get(row, "status")
    ensures !Truthy(Get(row, "Status")) && !Truthy(Get(row, "Azure Status")) && !Truthy(Get(row, "status")) ==>
      StatusOf(row) == (if 10 < |row| && Truthy(row[10].1) then row[10].1 else Null)
  {
    var keys := ["Status", "Azure Status", "status"];
    assert keys[1..] == ["Azure Status", "status"];
    assert keys[1..][1..] == ["status"];
    assert keys[1..][1..][1..] == [];
  }

  const CompletedWords: seq<string> := ["completed", "done", "finished", "complete", "100%", "yes", "y"]

  /** A truthy status that, lower-cased and trimmed, is one of the seven
      completion words. */
  predicate IsCompletedStatus(c: Cell) {
    Truthy(c) && Trim(Lower(ToStr(c))) in CompletedWords
  }

  predicate IsCompletedRow(row: Row) {
    IsCompletedStatus(StatusOf(row))
  }

  /** The number of the rows whose status is a completion word. */
  function CompletedCount(rows: seq<Row>): (n: nat)
    ensures n <= |rows|
    ensures n == |Filter(rows, IsCompletedRow)|
  {
    CountFilter(rows, IsCompletedRow);
    Count(rows, IsCompletedRow)
  }

  /** The `forEach` that increments `completedTasks`. */
  method CountCompleted(rows: seq<Row>) returns (completed: nat)
    ensures completed == CompletedCount(rows)
  {
    completed := 0;
    var i := 0;
    while i < |rows|
      invariant 0 <= i <= |rows|
      invariant completed == Count(rows[..i], IsCompletedRow)
    {
      var status := StatusOf(rows[i]);
      CountStep(rows, i, IsCompletedRow);
      if IsCompletedStatus(status) {
        completed := completed + 1;
      }
      i := i + 1;
    }
    assert rows[..|rows|] == rows;
  }

  /** `(completed / total) * 100`, or 0 for a stage without tasks. */
  function Progress(completed: nat, total: nat): (p: real)
    requires completed <= total
    ensures 0.0 <= p <= 100.0
    ensures total == 0 ==> p == 0.0
    ensures p == 100.0 <==> 0 < total && completed == total
    ensures p == 0.0 <==> completed == 0
  {
    if total > 0 then (completed as real / total as real) * 100.0 else 0.0
  }

  /** The record shown for one stage; `error` is set when its request failed. */
  datatype StageSummary = StageSummary(
    id: nat, name: Cell, totalTasks: nat, completed: nat, progress: real,
    partyTasks: seq<Row>, partyName: string, error: Option<string>)

  /** What the per-stage callback returns for the stage at `index`. */
  function StageResult(stageName: Cell, index: nat, response: Result<seq<Row>>, party: Party): (s: StageSummary)
    ensures s.id == index + 1 && s.name == stageName && s.partyName == party.name
    ensures s.completed <= s.totalTasks == |s.partyTasks|
    ensures s.totalTasks == 0 ==> s.progress == 0.0
    ensures response.Failure? ==> s.totalTasks == 0 && s.progress == 0.0 && s.error == Some(response.error)
    ensures response.Success? ==> s.error == None && s.partyTasks == PartyTasks(response.value, party.name)
  {
    match response
    case Failure(e) =>
      StageSummary(index + 1, stageName, 0, 0, 0.0, [], party.name, Some(e))
    case Success(rows) =>
      var tasks := PartyTasks(rows, party.name);
      var completed := CompletedCount(tasks);
      StageSummary(index + 1, stageName, |tasks|, completed, Progress(completed, |tasks|), tasks, party.name, None)
  }

  /** `fetchPartyStages`: one record per entry of `stagesPresent`, in order;
      `fetch` stands for the request made for a stage name. */
  function FetchPartyStages(party: Option<Party>, fetch: Cell -> Result<seq<Row>>): (r: seq<StageSummary>)
    ensures party.None? || party.value.stagesPresent == [] ==> r == []
    ensures party.Some? ==> |r| == |party.value.stagesPresent|
  {
    if party.None? || party.value.stagesPresent == [] then []
    else
      var stages := party.value.stagesPresent;
      seq(|stages|, i requires 0 <= i < |stages| => StageResult(stages[i], i, fetch(stages[i]), party.value))
  }

  /** Every record depends on its own stage's response only; ids follow the
      position in `stagesPresent`, and a failed request gives a zero record
      carrying the error message while the other stages are unaffected. */
  lemma FetchPartyStagesIndependent(party: Party, fetch: Cell -> Result<seq<Row>>, i: nat)
    requires i < |party.stagesPresent|
    ensures var r := FetchPartyStages(Some(party), fetch);
      && r[i] == StageResult(party.stagesPresent[i], i, fetch(party.stagesPresent[i]), party)
      && r[i].id == i + 1 && r[i].name == party.stagesPresent[i]
      && (fetch(party.stagesPresent[i]).Failure? ==>
            r[i].totalTasks == 0 && r[i].completed == 0 && r[i].progress == 0.0 && r[i].partyTasks == []
            && r[i].error == Some(fetch(party.stagesPresent[i]).error))
  {
  }

  /** The counts of a fetched stage: total is the number of the party's rows
      and completed the number of those with a completion status. */
  lemma StageResultCounts(stageName: Cell, index: nat, rows: seq<Row>, party: Party)
    ensures var s := StageResult(stageName, index, Success(rows), party);
      && s.totalTasks == |Filter(rows, PartyTaskMatcher(party.name))|
      && s.completed == |Filter(s.partyTasks, IsCompletedRow)|
      && s.progress == Progress(s.completed, s.totalTasks)
      && IsSubsequence(s.partyTasks, rows)
  {
    var s := StageResult(stageName, index, Success(rows), party);
    PartyTasksSubsequence(rows, party.name);
  }

  /** The selection handed to the task page: the stage with `detailedData`
      and `tasks` both set to its party rows. */
  datatype Selected = Selected(stage: StageSummary, detailedData: seq<Row>, tasks: seq<Row>)

  function HandleAction(stage: StageSummary): (r: Selected)
    ensures r.stage == stage && r.detailedData == stage.partyTasks && r.tasks == stage.partyTasks
  {
    Selected(stage, stage.partyTasks, stage.partyTasks)
  }

  /** A selected stage passes on only rows of the selected party. */
  lemma HandleActionPartyRows(party: Party, fetch: Cell -> Result<seq<Row>>, i: nat)
    requires i < |party.stagesPresent|
    ensures var sel := HandleAction(FetchPartyStages(Some(party), fetch)[i]);
      forall row :: row in sel.tasks ==> IsPartyTask(row, party.name)
  {
  }
}
