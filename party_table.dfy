/** The party list (components/party-table.jsx): the list the server
    returns, or, when it returns none, the parties gathered from every
    stage's rows with the stages each one appears in. */
module PartyTable {
  import opened Strings
  import opened Lists
  import opened Sheet

  /** One entry of the all-stages response: its fields other than
      `stageData`, in `Object.keys` order, and `stageData` when it is an
      array. */
  datatype StageInfo = StageInfo(fields: Row, stageData: Option<seq<Row>>)

  // ---------------------------------------------------------------------
  // Stage names

  /** The key of the first field holding a string, other than `stageData`;
      `Null` when there is none. */
  function FirstStringKey(fields: Row): (c: Cell)
    ensures c.Null? || c.Str?
  {
    if fields == [] then Null
    else if fields[0].1.Str? && fields[0].0 != "stageData" then Str(fields[0].0)
    else FirstStringKey(fields[1..])
  }

  /** The first field value that is a string; `Null` when there is none. */
  function FirstStringValue(fields: Row): (c: Cell)
    ensures c.Null? || c.Str?
  {
    if fields == [] then Null
    else if fields[0].1.Str? then fields[0].1
    else FirstStringValue(fields[1..])
  }

  /** The same, skipping a field named `stageData`. */
  function FirstStringField(fields: Row): (c: Cell)
    ensures c.Null? || c.Str?
  {
    if fields == [] then Null
    else if fields[0].1.Str? && fields[0].0 != "stageData" then fields[0].1
    else FirstStringField(fields[1..])
  }

  const UnknownStage: string := "Unknown Stage"

  /** The stage name as written: `name`, `Stage Name`, `Stage`, then the
      KEY of the first string field, then the first string value, then
      "Unknown Stage", whichever is truthy first. */
  function StageNameAsWritten(info: StageInfo): (c: Cell)
    ensures Truthy(c)
  {
    var named := Or(Or(Get(info.fields, "name"), Get(info.fields, "Stage Name")), Get(info.fields, "Stage"));
    Or(Or(Or(named, FirstStringKey(info.fields)), FirstStringValue(info.fields)), Str(UnknownStage))
  }

  /** The stage name with the fourth alternative reading the field's value,
      as the chain evidently intends. */
  function StageNameOf(info: StageInfo): (c: Cell)
    ensures Truthy(c)
  {
    var named := Or(Or(Get(info.fields, "name"), Get(info.fields, "Stage Name")), Get(info.fields, "Stage"));
    Or(Or(Or(named, FirstStringField(info.fields)), FirstStringValue(info.fields)), Str(UnknownStage))
  }

  /** A stage entry naming itself only in a `title` field is called "title"
      as written, and by its title once corrected. */
  lemma StageNameReadsKey(rows: seq<Row>)
    ensures var info := StageInfo([("title", Str("Foundation"))], Some(rows));
      StageNameAsWritten(info) == Str("title") && StageNameOf(info) == Str("Foundation")
  {
    var fields: Row := [("title", Str("Foundation"))];
    assert fields[1..] == [];
    assert Get(fields, "name") == Null && Get(fields, "Stage Name") == Null && Get(fields, "Stage") == Null;
  }

  /** Both chains agree whenever one of the named fields is truthy. */
  lemma StageNamesAgree(info: StageInfo)
    requires Truthy(Get(info.fields, "name")) || Truthy(Get(info.fields, "Stage Name")) || Truthy(Get(info.fields, "Stage"))
    ensures StageNameAsWritten(info) == StageNameOf(info)
  {
  }

  // ---------------------------------------------------------------------
  // Party names

  /** Method 1: the third value, when it is a string that is not blank, not
      the header "party name" in any case and does not contain "Party Name";
      trimmed. */
  function ColumnCName(row: Row): (r: Option<string>)
    ensures r.Some? ==> r.value != [] && Trim(r.value) == r.value && Lower(r.value) != "party name"
  {
    match ValueAt(row, 2)
    case Str(s) =>
      TrimIdempotent(s);
      if Trim(s) != [] && Lower(Trim(s)) != "party name" && !Contains(s, "Party Name") then Some(Trim(s)) else None
    case _ => None
  }

  /** The headers method 2 tries, in order. */
  const NameHeaders: seq<string> := ["Party Name", "party", "Party", "PARTY NAME", "PartyName", "party_name", "Party_Name"]

  /** The trimmed value under `key`, when it is a string that is neither
      blank nor "party name" in any case. */
  function HeaderValue(row: Row, key: string): (r: Option<string>)
    ensures r.Some? ==> r.value != [] && Trim(r.value) == r.value && Lower(r.value) != "party name"
  {
    match Get(row, key)
    case Str(s) =>
      TrimIdempotent(s);
      if Trim(s) != [] && Lower(Trim(s)) != "party name" then Some(Trim(s)) else None
    case _ => None
  }

  /** Method 2: the first header whose value qualifies. */
  function HeaderName(row: Row, keys: seq<string>): (r: Option<string>)
    ensures r.Some? ==> exists k :: 0 <= k < |keys| && HeaderValue(row, keys[k]) == r
    ensures r.None? <==> forall k :: 0 <= k < |keys| ==> HeaderValue(row, keys[k]).None?
  {
    if keys == [] then None
    else if HeaderValue(row, keys[0]).Some? then HeaderValue(row, keys[0])
    else
      var r := HeaderName(row, keys[1..]);
      assert forall k :: 1 <= k < |keys| ==> keys[1..][k - 1] == keys[k];
      r
  }

  /** The party name extracted from a row: method 1, else method 2. */
  function PartyNameOfRow(row: Row): (r: Option<string>)
    ensures r.Some? ==> r.value != [] && Trim(r.value) == r.value && Lower(r.value) != "party name"
  {
    if ColumnCName(row).Some? then ColumnCName(row) else HeaderName(row, NameHeaders)
  }

  lemma HeaderNameStep(row: Row, keys: seq<string>, k: nat)
    requires k < |keys|
    ensures HeaderName(row, keys[k..]) ==
      if HeaderValue(row, keys[k]).Some? then HeaderValue(row, keys[k]) else HeaderName(row, keys[k + 1..])
  {
    assert keys[k..][1..] == keys[k + 1..];
  }

  /** The extraction with its header loop and `break`. */
  method ExtractPartyName(row: Row) returns (partyName: Option<string>)
    ensures partyName == PartyNameOfRow(row)
  {
    partyName := ColumnCName(row);
    if partyName.None? {
      var k := 0;
      while k < |NameHeaders|
        invariant 0 <= k <= |NameHeaders|
        invariant partyName.None?
        invariant HeaderName(row, NameHeaders) == HeaderName(row, NameHeaders[k..])
      {
        HeaderNameStep(row, NameHeaders, k);
        var headerValue := HeaderValue(row, NameHeaders[k]);
        if headerValue.Some? {
          partyName := headerValue;
          break;
        }
        k := k + 1;
      }
    }
  }

  /** `count` decimal digits start at index `i` of `s`. */
  predicate DigitsAt(s: string, i: int, count: nat) {
    0 <= i && i + count <= |s| && forall j :: i <= j < i + count ==> '0' <= s[j] <= '9'
  }

  /** `s` starts with `a` digits, a slash, `b` digits, a slash and four
      digits. */
  predicate DateAt(s: string, a: nat, b: nat) {
    DigitsAt(s, 0, a) && a < |s| && s[a] == '/'
    && DigitsAt(s, a + 1, b) && a + 1 + b < |s| && s[a + 1 + b] == '/' && DigitsAt(s, a + b + 2, 4)
  }

  /** `s` matches `/^\d{1,2}\/\d{1,2}\/\d{4}/`. */
  predicate DatePrefix(s: string) {
    DateAt(s, 1, 1) || DateAt(s, 1, 2) || DateAt(s, 2, 1) || DateAt(s, 2, 2)
  }

  /** The acceptance test of a candidate name as written. */
  predicate AcceptedAsParty(name: string) {
    name != [] && Trim(name) != [] && Lower(Trim(name)) != "party name" && !DatePrefix(Trim(name))
  }

  /** For an extracted name the acceptance test is the date test alone: the
      other conditions hold already. */
  lemma AcceptanceIsDateTest(row: Row)
    requires PartyNameOfRow(row).Some?
    ensures AcceptedAsParty(PartyNameOfRow(row).value) <==> !DatePrefix(PartyNameOfRow(row).value)
  {
  }

  /** The party name a row contributes: the extracted name when accepted. */
  function AcceptedName(row: Row): (r: Option<string>)
    ensures r.Some? ==> r.value != [] && Trim(r.value) == r.value && Lower(r.value) != "party name" && !DatePrefix(r.value)
    ensures r.Some? <==> PartyNameOfRow(row).Some? && AcceptedAsParty(PartyNameOfRow(row).value)
  {
    var n := PartyNameOfRow(row);
    if n.Some? && AcceptedAsParty(n.value) then Some(Trim(n.value)) else None
  }

  /** A row whose third value is a date is not taken for a party. */
  lemma DateIsNoParty(row: Row, s: string)
    requires ValueAt(row, 2) == Str(s) && Trim(s) == s && DatePrefix(s)
    requires forall k :: 0 <= k < |NameHeaders| ==> !Get(row, NameHeaders[k]).Str?
    ensures AcceptedName(row) == None
  {
  }

  // ---------------------------------------------------------------------
  // Aggregation

  /** An accepted party name seen in a row of a stage. */
  datatype Sighting = Sighting(party: string, stage: Cell)

  /** `allParties` (a Set, in insertion order) and `partyStageMapping` (a
      dictionary of Sets, each in insertion order). */
  datatype Tally = Tally(parties: seq<string>, stages: map<string, seq<Cell>>)

  /** One sighting added to the tally: the name joins the parties, and the
      stage joins the name's stages, when new. */
  function AddSighting(t: Tally, s: Sighting): Tally {
    var parties := if s.party in t.parties then t.parties else t.parties + [s.party];
    var known := if s.party in t.stages then t.stages[s.party] else [];
    Tally(parties, t.stages[s.party := if s.stage in known then known else known + [s.stage]])
  }

  function PartyOf(s: Sighting): string {
    s.party
  }

  function StageOf(s: Sighting): Cell {
    s.stage
  }

  function IsFor(name: string): Sighting -> bool {
    (s: Sighting) => s.party == name
  }

  /** The distinct names sighted, in first-seen order. */
  function PartiesOf(sightings: seq<Sighting>): seq<string> {
    Distinct(Map(sightings, PartyOf))
  }

  /** The distinct stages `name` is sighted in, in first-seen order. */
  function StagesOf(sightings: seq<Sighting>, name: string): seq<Cell> {
    Distinct(Map(Filter(sightings, IsFor(name)), StageOf))
  }

  /** What the aggregation is to build from the sightings: the distinct
      names, each mapped to its distinct stages. */
  function TallyOf(sightings: seq<Sighting>): Tally {
    var parties := PartiesOf(sightings);
    Tally(parties, map n | n in parties :: StagesOf(sightings, n))
  }

  /** Some sighting is of party `name`. */
  predicate Sighted(sightings: seq<Sighting>, name: string) {
    exists i :: 0 <= i < |sightings| && sightings[i].party == name
  }

  /** A name is among the parties exactly when it is sighted. */
  lemma PartiesOfSighted(sightings: seq<Sighting>, name: string)
    ensures name in PartiesOf(sightings) <==> Sighted(sightings, name)
  {
    var m := Map(sightings, PartyOf);
    if name in m {
      var i :| 0 <= i < |m| && m[i] == name;
      assert sightings[i].party == name;
    }
    if Sighted(sightings, name) {
      var i :| 0 <= i < |sightings| && sightings[i].party == name;
      assert m[i] == name;
    }
  }

  lemma PartiesOfSnoc(sightings: seq<Sighting>, s: Sighting)
    ensures PartiesOf(sightings + [s]) ==
      if s.party in PartiesOf(sightings) then PartiesOf(sightings) else PartiesOf(sightings) + [s.party]
  {
    MapSnoc(sightings, s, PartyOf);
    DistinctSnoc(Map(sightings, PartyOf), s.party);
  }

  lemma StagesOfSnoc(sightings: seq<Sighting>, s: Sighting, name: string)
    ensures StagesOf(sightings + [s], name) ==
      if s.party != name then StagesOf(sightings, name)
      else if s.stage in StagesOf(sightings, name) then StagesOf(sightings, name)
      else StagesOf(sightings, name) + [s.stage]
  {
    var f := Filter(sightings, IsFor(name));
    assert (sightings + [s])[..|sightings|] == sightings;
    assert Filter(sightings + [s], IsFor(name)) == f + if s.party == name then [s] else [];
    if s.party == name {
      MapSnoc(f, s, StageOf);
      DistinctSnoc(Map(f, StageOf), s.stage);
    } else {
      assert f + [] == f;
    }
  }

  /** A name that is not among the parties has no stages. */
  lemma UnsightedStages(sightings: seq<Sighting>, name: string)
    requires name !in PartiesOf(sightings)
    ensures StagesOf(sightings, name) == []
  {
    PartiesOfSighted(sightings, name);
    forall x | x in sightings ensures !IsFor(name)(x) {
      var i :| 0 <= i < |sightings| && sightings[i] == x;
    }
    FilterNone(sightings, IsFor(name));
  }

  /** The entry of `name` after one more sighting. */
  lemma TallyStepAt(sightings: seq<Sighting>, s: Sighting, name: string)
    requires name in PartiesOf(sightings + [s])
    ensures name in AddSighting(TallyOf(sightings), s).stages
    ensures AddSighting(TallyOf(sightings), s).stages[name] == StagesOf(sightings + [s], name)
  {
    PartiesOfSnoc(sightings, s);
    StagesOfSnoc(sightings, s, name);
    if name !in PartiesOf(sightings) {
      UnsightedStages(sightings, name);
    }
  }

  /** The names after one more sighting. */
  lemma TallyStepParties(sightings: seq<Sighting>, s: Sighting)
    ensures TallyOf(sightings + [s]).parties == AddSighting(TallyOf(sightings), s).parties
  {
    PartiesOfSnoc(sightings, s);
  }

  /** The keys of the mapping after one more sighting. */
  lemma TallyStepKeys(sightings: seq<Sighting>, s: Sighting)
    ensures TallyOf(sightings + [s]).stages.Keys == AddSighting(TallyOf(sightings), s).stages.Keys
  {
    PartiesOfSnoc(sightings, s);
  }

  /** One step of the aggregation loop extends the tally of the sightings
      so far by the next sighting. */
  lemma TallyStep(sightings: seq<Sighting>, s: Sighting)
    ensures TallyOf(sightings + [s]) == AddSighting(TallyOf(sightings), s)
  {
    var t' := TallyOf(sightings + [s]);
    var a := AddSighting(TallyOf(sightings), s);
    TallyStepParties(sightings, s);
    TallyStepKeys(sightings, s);
    forall n | n in t'.stages ensures t'.stages[n] == a.stages[n] {
      TallyStepAt(sightings, s, n);
    }
    MapExtensional(t'.stages, a.stages);
  }

  /** The sighting row `k` of a stage contributes; the header row 0
      contributes none. */
  function RowSightingOf(rows: seq<Row>, stageName: Cell): nat -> Option<Sighting> {
    (k: nat) => if 0 < k < |rows| && AcceptedName(rows[k]).Some? then Some(Sighting(AcceptedName(rows[k]).value, stageName)) else None
  }

  /** The sightings of one stage entry: none without an array of rows. */
  function StageSightings(info: StageInfo): seq<Sighting> {
    if info.stageData.None? then []
    else Gather(|info.stageData.value|, RowSightingOf(info.stageData.value, StageNameAsWritten(info)))
  }

  function StageSightingsOf(data: seq<StageInfo>): nat -> seq<Sighting> {
    (p: nat) => if p < |data| then StageSightings(data[p]) else []
  }

  /** All sightings, stage by stage and row by row. */
  function Sightings(data: seq<StageInfo>): seq<Sighting> {
    Flatten(|data|, StageSightingsOf(data))
  }

  /** The records shown: one per party in insertion order, numbered from 1,
      with its stages. */
  function Records(t: Tally): (r: seq<Party>)
    ensures |r| == |t.parties|
  {
    seq(|t.parties|, i requires 0 <= i < |t.parties| =>
      var stages := if t.parties[i] in t.stages then t.stages[t.parties[i]] else [];
      Party(i + 1, t.parties[i], |stages|, stages))
  }

  /** The fallback party list of the all-stages response. */
  function FallbackParties(data: seq<StageInfo>): seq<Party> {
    Records(TallyOf(Sightings(data)))
  }

  /** The per-row body of the aggregation, on `allParties` and
      `partyStageMapping`. */
  method TallyRow(allParties: seq<string>, partyStageMapping: map<string, seq<Cell>>, row: Row, stageName: Cell)
    returns (parties: seq<string>, mapping: map<string, seq<Cell>>)
    requires Truthy(stageName)
    ensures Tally(parties, mapping) ==
      if AcceptedName(row).Some? then AddSighting(Tally(allParties, partyStageMapping), Sighting(AcceptedName(row).value, stageName))
      else Tally(allParties, partyStageMapping)
  {
    parties, mapping := allParties, partyStageMapping;
    var partyName := ExtractPartyName(row);
    if partyName.Some? && AcceptedAsParty(partyName.value) {
      var cleanPartyName := Trim(partyName.value);
      if cleanPartyName !in parties {
        parties := parties + [cleanPartyName];
      }
      if cleanPartyName !in mapping {
        mapping := mapping[cleanPartyName := []];
      }
      if Truthy(stageName) && stageName !in mapping[cleanPartyName] {
        mapping := mapping[cleanPartyName := mapping[cleanPartyName] + [stageName]];
      }
    }
  }

  /** The inner `forEach` over one stage's rows. */
  method TallyStage(allParties: seq<string>, partyStageMapping: map<string, seq<Cell>>, info: StageInfo, ghost before: seq<Sighting>)
    returns (parties: seq<string>, mapping: map<string, seq<Cell>>)
    requires Tally(allParties, partyStageMapping) == TallyOf(before)
    ensures Tally(parties, mapping) == TallyOf(before + StageSightings(info))
  {
    parties, mapping := allParties, partyStageMapping;
    if info.stageData.None? {
      assert before + StageSightings(info) == before;
      return;
    }
    var stageName := StageNameAsWritten(info);
    var rows := info.stageData.value;
    ghost var f := RowSightingOf(rows, stageName);
    var index := 0;
    assert before + Gather(0, f) == before;
    while index < |rows|
      invariant 0 <= index <= |rows|
      invariant Tally(parties, mapping) == TallyOf(before + Gather(index, f))
    {
      StageStep(rows, stageName, index, before);
      if index != 0 {
        parties, mapping := TallyRow(parties, mapping, rows[index], stageName);
      }
      index := index + 1;
    }
  }

  /** The loop step over row `index`: the row's accepted name, if any and
      if the row is not the header, is added to the tally. */
  lemma StageStep(rows: seq<Row>, stageName: Cell, index: nat, before: seq<Sighting>)
    ensures var f := RowSightingOf(rows, stageName);
      var t := TallyOf(before + Gather(index, f));
      TallyOf(before + Gather(index + 1, f)) ==
        if 0 < index < |rows| && AcceptedName(rows[index]).Some? then AddSighting(t, Sighting(AcceptedName(rows[index]).value, stageName)) else t
  {
    var f := RowSightingOf(rows, stageName);
    var done := before + Gather(index, f);
    assert before + Gather(index + 1, f) == done + (if f(index).Some? then [f(index).value] else []);
    if f(index).Some? {
      TallyStep(done, f(index).value);
    } else {
      assert done + [] == done;
    }
  }

  lemma SightingsStep(data: seq<StageInfo>, s: nat)
    requires s < |data|
    ensures Flatten(s + 1, StageSightingsOf(data)) == Flatten(s, StageSightingsOf(data)) + StageSightings(data[s])
  {
  }

  /** The fallback aggregation of `fetchAllParties`. */
  method AggregateParties(allStageData: seq<StageInfo>) returns (transformedData: seq<Party>)
    ensures transformedData == FallbackParties(allStageData)
  {
    var allParties: seq<string> := [];
    var partyStageMapping: map<string, seq<Cell>> := map[];
    var s := 0;
    while s < |allStageData|
      invariant 0 <= s <= |allStageData|
      invariant Tally(allParties, partyStageMapping) == TallyOf(Flatten(s, StageSightingsOf(allStageData)))
    {
      ghost var before := Flatten(s, StageSightingsOf(allStageData));
      allParties, partyStageMapping := TallyStage(allParties, partyStageMapping, allStageData[s], before);
      SightingsStep(allStageData, s);
      s := s + 1;
    }
    transformedData := Records(Tally(allParties, partyStageMapping));
  }

  // ---------------------------------------------------------------------
  // What the aggregation promises

  /** The mapping has an entry for exactly the sighted names. */
  lemma TallyKeys(sightings: seq<Sighting>)
    ensures forall n :: n in TallyOf(sightings).stages <==> Sighted(sightings, n)
  {
    forall n ensures n in TallyOf(sightings).stages <==> Sighted(sightings, n) {
      PartiesOfSighted(sightings, n);
    }
  }

  /** Some record carries `name`. */
  predicate Listed(r: seq<Party>, name: string) {
    exists i :: 0 <= i < |r| && r[i].name == name
  }

  /** The fallback list: distinct names numbered 1..n, each with as many
      projects as stages. */
  lemma FallbackPartiesNumbered(data: seq<StageInfo>)
    ensures var r := FallbackParties(data);
      && (forall i, j :: 0 <= i < j < |r| ==> r[i].name != r[j].name)
      && (forall i :: 0 <= i < |r| ==> r[i].id == i + 1 && r[i].totalProjects == |r[i].stagesPresent|)
  {
    var t := TallyOf(Sightings(data));
    assert NoDuplicates(t.parties);
    RecordsNumbered(t);
  }

  /** `Records` numbers the tally's parties from 1 and counts their stages. */
  lemma RecordsNumbered(t: Tally)
    requires NoDuplicates(t.parties)
    ensures var r := Records(t);
      && (forall i, j :: 0 <= i < j < |r| ==> r[i].name != r[j].name)
      && (forall i :: 0 <= i < |r| ==> r[i].id == i + 1 && r[i].totalProjects == |r[i].stagesPresent|)
  {
    var r := Records(t);
    forall i, j | 0 <= i < j < |r| ensures r[i].name != r[j].name {
      assert r[i].name == t.parties[i] && r[j].name == t.parties[j];
    }
  }

  /** A name has a record exactly when it is among the tally's parties. */
  lemma ListedRecords(t: Tally, name: string)
    ensures Listed(Records(t), name) <==> name in t.parties
  {
    var r := Records(t);
    if name in t.parties {
      var i :| 0 <= i < |t.parties| && t.parties[i] == name;
      assert r[i].name == name;
    }
    if Listed(r, name) {
      var i :| 0 <= i < |r| && r[i].name == name;
      assert t.parties[i] == name;
    }
  }

  /** A name is listed exactly when some stage sights it. */
  lemma FallbackPartiesListed(data: seq<StageInfo>, name: string)
    ensures Listed(FallbackParties(data), name) <==> Sighted(Sightings(data), name)
  {
    ListedRecords(TallyOf(Sightings(data)), name);
    PartiesOfSighted(Sightings(data), name);
  }

  /** The stages of a name are distinct and are exactly those it is sighted
      with. */
  lemma StagesOfSpec(sightings: seq<Sighting>, name: string)
    ensures NoDuplicates(StagesOf(sightings, name))
    ensures forall st :: st in StagesOf(sightings, name) <==> Sighting(name, st) in sightings
  {
    var f := Filter(sightings, IsFor(name));
    forall st ensures st in Map(f, StageOf) <==> Sighting(name, st) in sightings {
      if st in Map(f, StageOf) {
        var j :| 0 <= j < |f| && Map(f, StageOf)[j] == st;
        assert f[j] == Sighting(name, st);
      }
      if Sighting(name, st) in sightings {
        assert Sighting(name, st) in f;
        var j :| 0 <= j < |f| && f[j] == Sighting(name, st);
        assert Map(f, StageOf)[j] == st;
      }
    }
  }

  /** The record at `i` of a tally whose `i`-th name has an entry. */
  lemma RecordAt(t: Tally, i: nat)
    requires i < |t.parties| && t.parties[i] in t.stages
    ensures var n := t.parties[i];
      Records(t)[i] == Party(i + 1, n, |t.stages[n]|, t.stages[n])
  {
  }

  /** The record at `i` is the tally's `i`-th name with that name's stages. */
  lemma RecordOfTally(sightings: seq<Sighting>, i: nat)
    requires i < |Records(TallyOf(sightings))|
    ensures var n := PartiesOf(sightings)[i];
      Records(TallyOf(sightings))[i] == Party(i + 1, n, |StagesOf(sightings, n)|, StagesOf(sightings, n))
  {
    var t := TallyOf(sightings);
    assert t.parties[i] in t.stages;
    RecordAt(t, i);
  }

  /** Each party's stages are distinct, are exactly the stages it is
      sighted in, and come in the order they were first sighted in. */
  lemma FallbackPartiesStages(data: seq<StageInfo>, i: nat)
    requires i < |FallbackParties(data)|
    ensures var p := FallbackParties(data)[i];
      && NoDuplicates(p.stagesPresent)
      && (forall st :: st in p.stagesPresent <==> Sighting(p.name, st) in Sightings(data))
    ensures var p := FallbackParties(data)[i];
      var seen := Map(Filter(Sightings(data), IsFor(p.name)), StageOf);
      forall a, b :: 0 <= a < b < |p.stagesPresent| ==>
        p.stagesPresent[a] in seen && p.stagesPresent[b] in seen &&
        FirstIndex(seen, p.stagesPresent[a]) < FirstIndex(seen, p.stagesPresent[b])
  {
    var n := PartiesOf(Sightings(data))[i];
    RecordOfTally(Sightings(data), i);
    StagesOfSpec(Sightings(data), n);
    DistinctFirstSeenOrder(Map(Filter(Sightings(data), IsFor(n)), StageOf));
  }

  /** The parties appear in the order their names are first sighted. */
  lemma FallbackPartiesOrder(data: seq<StageInfo>)
    ensures var r := FallbackParties(data);
      var names := Map(Sightings(data), PartyOf);
      forall i, j :: 0 <= i < j < |r| ==>
        r[i].name in names && r[j].name in names && FirstIndex(names, r[i].name) < FirstIndex(names, r[j].name)
  {
    DistinctFirstSeenOrder(Map(Sightings(data), PartyOf));
  }

  /** The sightings of one stage entry come from the accepted names of its
      rows after the first, each with the entry's stage name. */
  lemma StageSightingsOrigin(info: StageInfo, s: Sighting)
    ensures s in StageSightings(info) <==>
      && info.stageData.Some?
      && s.stage == StageNameAsWritten(info)
      && exists k :: 0 < k < |info.stageData.value| && AcceptedName(info.stageData.value[k]) == Some(s.party)
  {
    if info.stageData.Some? {
      var rows := info.stageData.value;
      var f := RowSightingOf(rows, StageNameAsWritten(info));
      GatherOrigin(|rows|, f, s);
      if k :| 0 < k < |rows| && AcceptedName(rows[k]) == Some(s.party) {
        if s.stage == StageNameAsWritten(info) {
          assert f(k) == Some(s);
        }
      }
    }
  }

  /** All sightings are those of the stage entries. */
  lemma SightingsOrigin(data: seq<StageInfo>, s: Sighting)
    ensures s in Sightings(data) <==> exists p :: 0 <= p < |data| && s in StageSightings(data[p])
  {
    FlattenOrigin(|data|, StageSightingsOf(data), s);
    if p :| 0 <= p < |data| && s in StageSightings(data[p]) {
      assert s in StageSightingsOf(data)(p);
    }
  }

  // ---------------------------------------------------------------------
  // The mapping as written

  const AddError: string := "partyStageMapping[cleanPartyName].add is not a function"

  /** One sighting as written: an inherited member is truthy, so no Set is
      created for it and the `add` throws. */
  function AddSightingTo(t: Tally, inherited: seq<string>, s: Sighting): Result<Tally> {
    var parties := if s.party in t.parties then t.parties else t.parties + [s.party];
    match Lookup(t.stages, inherited, s.party)
    case Own(known) => Success(Tally(parties, t.stages[s.party := if s.stage in known then known else known + [s.stage]]))
    case Missing => Success(Tally(parties, t.stages[s.party := [s.stage]]))
    case Inherited => Failure(AddError)
  }

  /** The aggregation loop as written, on an object whose prototype has the
      members `inherited`; the first TypeError ends it. */
  function TallyInto(sightings: seq<Sighting>, inherited: seq<string>): Result<Tally>
    decreases |sightings|
  {
    if sightings == [] then Success(Tally([], map[]))
    else
      var r := TallyInto(sightings[..|sightings| - 1], inherited);
      if r.Failure? then r else AddSightingTo(r.value, inherited, sightings[|sightings| - 1])
  }

  /** The aggregation as written: `partyStageMapping` is a plain object. */
  function TallyAsWritten(sightings: seq<Sighting>): Result<Tally> {
    TallyInto(sightings, PrototypeKeys)
  }

  /** Where one step as written does not throw, it is the corrected step. */
  lemma AddSightingToAgrees(t: Tally, inherited: seq<string>, s: Sighting)
    requires AddSightingTo(t, inherited, s).Success?
    ensures AddSightingTo(t, inherited, s).value == AddSighting(t, s)
  {
    assert [] + [s.stage] == [s.stage];
  }

  /** When it does not throw, the loop as written builds the corrected
      tally. */
  lemma {:induction false} TallyIntoAgrees(sightings: seq<Sighting>, inherited: seq<string>)
    requires TallyInto(sightings, inherited).Success?
    ensures TallyInto(sightings, inherited).value == TallyOf(sightings)
    decreases |sightings|
  {
    if sightings != [] {
      var init := sightings[..|sightings| - 1];
      var last := sightings[|sightings| - 1];
      TallyIntoAgrees(init, inherited);
      AddSightingToAgrees(TallyOf(init), inherited, last);
      assert sightings == init + [last];
      TallyStep(init, last);
    }
  }

  /** When it does not throw, the loop as written has an entry for exactly
      the sighted names. */
  lemma TallyIntoKeys(sightings: seq<Sighting>, inherited: seq<string>)
    requires TallyInto(sightings, inherited).Success?
    ensures forall n :: n in TallyInto(sightings, inherited).value.stages <==> Sighted(sightings, n)
  {
    TallyIntoAgrees(sightings, inherited);
    TallyKeys(sightings);
  }

  /** The loop throws exactly when some sighted name is an inherited
      member's name. */
  lemma {:induction false} TallyIntoFails(sightings: seq<Sighting>, inherited: seq<string>)
    ensures TallyInto(sightings, inherited).Failure? <==>
      exists i :: 0 <= i < |sightings| && sightings[i].party in inherited
    decreases |sightings|
  {
    if sightings != [] {
      var n := |sightings| - 1;
      var init := sightings[..n];
      var last := sightings[n];
      TallyIntoFails(init, inherited);
      assert forall i :: 0 <= i < n ==> init[i] == sightings[i];
      var r := TallyInto(init, inherited);
      if r.Success? {
        assert TallyInto(sightings, inherited) == AddSightingTo(r.value, inherited, last);
        TallyIntoKeys(init, inherited);
        if last.party in r.value.stages {
          assert Sighted(init, last.party);
          var i :| 0 <= i < |init| && init[i].party == last.party;
          assert last.party !in inherited;
        }
      } else {
        var i :| 0 <= i < n && init[i].party in inherited;
        assert sightings[i] == init[i];
      }
    }
  }

  /** The only error the loop raises is the TypeError of the `add`. */
  lemma {:induction false} TallyIntoError(sightings: seq<Sighting>, inherited: seq<string>)
    requires TallyInto(sightings, inherited).Failure?
    ensures TallyInto(sightings, inherited).error == AddError
    decreases |sightings|
  {
    var init := sightings[..|sightings| - 1];
    if TallyInto(init, inherited).Failure? {
      TallyIntoError(init, inherited);
    }
  }

  /** Some sighted party name is the name of an `Object.prototype` member. */
  predicate SightsInheritedName(sightings: seq<Sighting>) {
    exists i :: 0 <= i < |sightings| && sightings[i].party in PrototypeKeys
  }

  /** As written, the fallback throws exactly when some sighted party name
      is the name of an `Object.prototype` member, and otherwise builds the
      corrected tally. */
  lemma TallyAsWrittenSpec(sightings: seq<Sighting>)
    ensures TallyAsWritten(sightings).Failure? <==> SightsInheritedName(sightings)
    ensures TallyAsWritten(sightings).Failure? ==> TallyAsWritten(sightings).error == AddError
    ensures TallyAsWritten(sightings).Success? ==> TallyAsWritten(sightings).value == TallyOf(sightings)
  {
    TallyIntoFails(sightings, PrototypeKeys);
    if TallyAsWritten(sightings).Failure? {
      TallyIntoError(sightings, PrototypeKeys);
    } else {
      TallyIntoAgrees(sightings, PrototypeKeys);
    }
  }

  /** A party called "constructor" makes the fallback throw as written; the
      corrected tally lists it. */
  lemma ConstructorPartyBreaksFallback(stage: Cell)
    ensures TallyAsWritten([Sighting("constructor", stage)]) == Failure(AddError)
    ensures TallyOf([Sighting("constructor", stage)]).parties == ["constructor"]
  {
    var sg := [Sighting("constructor", stage)];
    assert sg[..0] == [];
    assert TallyInto(sg[..0], PrototypeKeys) == Success(Tally([], map[]));
    assert "constructor" in PrototypeKeys;
    assert AddSightingTo(Tally([], map[]), PrototypeKeys, sg[0]) == Failure(AddError);
  }

  // ---------------------------------------------------------------------
  // fetchAllParties

  /** The table's `partyData` and `error` state. */
  datatype PartyList = PartyList(parties: seq<Party>, error: Option<string>)

  /** `fetchAllParties`: a non-empty primary list is shown as it is; a
      failed or empty primary request falls back to the aggregation. A
      failing fallback request, or the `add` TypeError of the mapping as
      written, keeps the previous list and shows the message. */
  function FetchAllParties(state: PartyList, primary: Result<seq<Party>>, fallback: Result<seq<StageInfo>>): (s: PartyList)
    ensures primary.Success? && primary.value != [] ==> s == PartyList(primary.value, None)
    ensures !(primary.Success? && primary.value != []) && fallback.Failure? ==> s == PartyList(state.parties, Some(fallback.error))
    ensures !(primary.Success? && primary.value != []) && fallback.Success? && SightsInheritedName(Sightings(fallback.value)) ==>
      s == PartyList(state.parties, Some(AddError))
    ensures !(primary.Success? && primary.value != []) && fallback.Success? && !SightsInheritedName(Sightings(fallback.value)) ==>
      s.error == None && s.parties == FallbackParties(fallback.value)
  {
    if primary.Success? && primary.value != [] then PartyList(primary.value, None)
    else
      match fallback
      case Failure(e) => PartyList(state.parties, Some(e))
      case Success(data) =>
        var tally := TallyAsWritten(Sightings(data));
        TallyAsWrittenSpec(Sightings(data));
        if tally.Failure? then PartyList(state.parties, Some(tally.error))
        else PartyList(Records(tally.value), None)
  }

  /** The primary list keeps the server's order and contents. */
  lemma PrimaryVerbatim(state: PartyList, parties: seq<Party>, fallback: Result<seq<StageInfo>>)
    requires parties != []
    ensures FetchAllParties(state, Success(parties), fallback).parties == parties
  {
  }

  /** A failing primary request is not shown: the outcome is the fallback's. */
  lemma PrimaryFailureFallsBack(state: PartyList, e: string, fallback: Result<seq<StageInfo>>)
    ensures FetchAllParties(state, Failure(e), fallback) == FetchAllParties(state, Success([]), fallback)
  {
  }
}
