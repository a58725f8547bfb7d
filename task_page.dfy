/** The page that steps through the three views (components/task-page.jsx):
    the party list, the stages of the selected party, and the tasks of the
    selected stage, with a Back button and a breadcrumb. */
module TaskPage {
  import opened Sheet
  import StageTable

  datatype View = Parties | Stages | Tasks

  /** What the stage list hands over on selection: the page imports
      components/stage-table.jsx, whose `handleAction` passes the stage with
      its party rows. */
  type StageSelection = StageTable.Selected

  /** The page's three pieces of state. */
  datatype PageState = PageState(view: View, party: Option<Party>, stage: Option<StageSelection>)

  /** What the user can do: pick a party, pick a stage, or go back. */
  datatype Action = SelectParty(party: Party) | SelectStage(stage: StageSelection) | Back

  const Initial: PageState := PageState(Parties, None, None)

  /** The handler of each action, on the state. */
  function Step(s: PageState, a: Action): PageState {
    match a
    case SelectParty(p) => PageState(Stages, Some(p), None)
    case SelectStage(st) => PageState(Tasks, s.party, Some(st))
    case Back =>
      if s.view == Tasks then PageState(Stages, s.party, None)
      else if s.view == Stages then PageState(Parties, None, None)
      else s
  }

  /** The state after a sequence of actions. */
  function Run(s: PageState, actions: seq<Action>): PageState
    decreases |actions|
  {
    if actions == [] then s else Run(Step(s, actions[0]), actions[1..])
  }

  /** Only the tasks view holds a stage, and the party list holds no party. */
  predicate Consistent(s: PageState) {
    && (s.view != Tasks ==> s.stage.None?)
    && (s.view == Parties ==> s.party.None?)
  }

  lemma InitialConsistent()
    ensures Consistent(Initial)
  {
  }

  /** Every action keeps the state consistent. */
  lemma StepConsistent(s: PageState, a: Action)
    requires Consistent(s)
    ensures Consistent(Step(s, a))
  {
  }

  /** Whatever sequence of actions happens, the state stays consistent. */
  lemma {:induction false} RunConsistent(s: PageState, actions: seq<Action>)
    requires Consistent(s)
    ensures Consistent(Run(s, actions))
    decreases |actions|
  {
    if actions != [] {
      StepConsistent(s, actions[0]);
      RunConsistent(Step(s, actions[0]), actions[1..]);
    }
  }

  /** The Back button is rendered exactly outside the party list. */
  predicate ShowsBack(s: PageState) {
    s.view != Parties
  }

  /** The actions the rendered page offers: the party list's selection,
      the stage list's selection, and Back where its button is shown. */
  predicate Offered(s: PageState, a: Action) {
    match a
    case SelectParty(_) => s.view == Parties
    case SelectStage(_) => s.view == Stages
    case Back => ShowsBack(s)
  }

  /** Every action in the sequence is offered in the state it is taken in. */
  predicate OfferedRun(s: PageState, actions: seq<Action>)
    decreases |actions|
  {
    actions == [] || (Offered(s, actions[0]) && OfferedRun(Step(s, actions[0]), actions[1..]))
  }

  /** The view decides what is selected: a party in the stages view, a
      party and a stage in the tasks view, nothing in the party list. */
  predicate Navigated(s: PageState) {
    && Consistent(s)
    && (s.view == Stages ==> s.party.Some?)
    && (s.view == Tasks ==> s.party.Some? && s.stage.Some?)
  }

  lemma StepNavigated(s: PageState, a: Action)
    requires Navigated(s) && Offered(s, a)
    ensures Navigated(Step(s, a))
  {
  }

  /** Through the rendered page alone, the stage and task lists always have
      their party (and the task list its stage). */
  lemma {:induction false} RunNavigated(s: PageState, actions: seq<Action>)
    requires Navigated(s) && OfferedRun(s, actions)
    ensures Navigated(Run(s, actions))
    decreases |actions|
  {
    if actions != [] {
      StepNavigated(s, actions[0]);
      RunNavigated(Step(s, actions[0]), actions[1..]);
    }
  }

  /** Without the rendering's restriction a stage can be selected from the
      party list, and the tasks view then has no party. */
  lemma StageWithoutParty(st: StageSelection)
    ensures var s := Step(Initial, SelectStage(st));
      s.view == Tasks && s.party.None? && Consistent(s) && !Navigated(s)
  {
  }

  /** Back undoes the step forward: from the tasks view it returns to the
      stages view the stage was picked in, from the stages view to the
      initial state. */
  lemma BackUndoesSelectStage(s: PageState, st: StageSelection)
    requires Consistent(s) && s.view == Stages
    ensures Step(Step(s, SelectStage(st)), Back) == s
  {
  }

  lemma BackUndoesSelectParty(s: PageState, p: Party)
    ensures Step(Step(s, SelectParty(p)), Back) == Initial
  {
  }

  /** Back at most twice reaches the party list, from any consistent state. */
  lemma BackTwiceReachesParties(s: PageState)
    requires Consistent(s)
    ensures Run(s, [Back, Back]) == Initial
  {
    assert [Back, Back][1..] == [Back];
    assert [Back][1..] == [];
  }

  /** `${x?.name}` for the selected party: "undefined" when there is none. */
  function PartyText(p: Option<Party>): string {
    if p.None? then "undefined" else p.value.name
  }

  /** `${x?.name}` for the selected stage. */
  function StageText(st: Option<StageSelection>): string {
    if st.None? then "undefined" else ToStr(st.value.stage.name)
  }

  const StagesSuffix: string := " > Stages"
  const TasksSuffix: string := " > Tasks"

  /** `getBreadcrumb`. */
  function Breadcrumb(s: PageState): string {
    match s.view
    case Parties => "All Parties"
    case Stages => PartyText(s.party) + StagesSuffix
    case Tasks => PartyText(s.party) + " > " + StageText(s.stage) + TasksSuffix
  }

  predicate EndsWith(s: string, suffix: string) {
    |suffix| <= |s| && s[|s| - |suffix|..] == suffix
  }

  /** The breadcrumb tells the view: its ending names the view, and "All
      Parties" is shown only on the party list. */
  lemma BreadcrumbShowsView(s: PageState)
    ensures EndsWith(Breadcrumb(s), TasksSuffix) <==> s.view == Tasks
    ensures EndsWith(Breadcrumb(s), StagesSuffix) <==> s.view == Stages
    ensures Breadcrumb(s) == "All Parties" <==> s.view == Parties
  {
    var r := Breadcrumb(s);
    match s.view
    case Parties =>
      assert r[|r| - |TasksSuffix|..] != TasksSuffix by {
        assert r[|r| - |TasksSuffix|..][1] == 'P';
      }
      assert r[|r| - |StagesSuffix|..] != StagesSuffix by {
        assert r[|r| - |StagesSuffix|..][0] == 'l';
      }
    case Stages =>
      assert r[|r| - |StagesSuffix|..] == StagesSuffix;
      assert r[|r| - |TasksSuffix|..] != TasksSuffix by {
        assert r[|r| - |TasksSuffix|..][1] == StagesSuffix[2];
      }
      assert r != "All Parties" by {
        assert |r| < 11 || r[|r| - 3] == 'g';
      }
    case Tasks =>
      assert r[|r| - |TasksSuffix|..] == TasksSuffix;
      assert r[|r| - |StagesSuffix|..] != StagesSuffix by {
        assert r[|r| - |StagesSuffix|..][2] == TasksSuffix[1];
      }
      assert r != "All Parties" by {
        assert |r| < 11 || r[|r| - 3] == 's';
      }
  }

  /** Once navigated to a party, the breadcrumb starts with its name. */
  lemma BreadcrumbNamesParty(s: PageState)
    requires Navigated(s) && s.view != Parties
    ensures |s.party.value.name| <= |Breadcrumb(s)|
    ensures Breadcrumb(s)[..|s.party.value.name|] == s.party.value.name
  {
    var n := s.party.value.name;
    if s.view == Stages {
      assert (n + StagesSuffix)[..|n|] == n;
    } else {
      assert (n + " > " + StageText(s.stage) + TasksSuffix)[..|n|] == n;
    }
  }

  /** `TaskPage`: the view and the selections, updated by the handlers. */
  class Page {
    var currentView: View
    var selectedParty: Option<Party>
    var selectedStage: Option<StageSelection>

    function State(): PageState
      reads this
    {
      PageState(currentView, selectedParty, selectedStage)
    }

    /** The initial state: the party list, nothing selected. */
    constructor ()
      ensures State() == Initial
    {
      currentView := Parties;
      selectedParty := None;
      selectedStage := None;
    }

    /** `handlePartyAction`. */
    method HandlePartyAction(party: Party)
      modifies this
      ensures State() == Step(old(State()), SelectParty(party))
      ensures Consistent(State())
    {
      selectedParty := Some(party);
      selectedStage := None;
      currentView := Stages;
    }

    /** `handleStageAction`. */
    method HandleStageAction(stage: StageSelection)
      modifies this
      ensures State() == Step(old(State()), SelectStage(stage))
      ensures Consistent(State())
    {
      selectedStage := Some(stage);
      currentView := Tasks;
    }

    /** `handleBack`. */
    method HandleBack()
      modifies this
      ensures State() == Step(old(State()), Back)
      ensures old(Consistent(State())) ==> Consistent(State())
    {
      if currentView == Tasks {
        currentView := Stages;
        selectedStage := None;
      } else if currentView == Stages {
        currentView := Parties;
        selectedParty := None;
        selectedStage := None;
      }
    }

  }
}
