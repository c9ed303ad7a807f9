/**
 * The sort-settings dialog's view model (`SortSettingsViewModel`): six
 * sort settings held twice, in a preferences object and in a view-state
 * snapshot, and setters that apply fixed coupling rules between them.
 *
 * Each setter is given as a pure function on `ViewState` (what the six
 * settings become) and as a method of the class `SortSettingsViewModel`
 * that assigns the preference fields one by one, as the source does, and
 * then replaces the view state; the methods are proved to end with both
 * copies equal to that function of the old settings.
 */
module SortSettings {

  /** `SortHelper.GROUP_NONE`: no grouping. */
  const GROUP_NONE: int := -1
  /** `SortHelper.SORT_MODIFIED`: by modification time. */
  const SORT_MODIFIED: int := 4
  /** `SortHelper.SORT_CREATED`: by creation time. */
  const SORT_CREATED: int := 5

  /** The six settings the dialog shows. */
  datatype ViewState = ViewState(
    manualSort: bool,
    astridSort: bool,
    groupMode: int,
    groupAscending: bool,
    sortMode: int,
    sortAscending: bool)

  /** The direction a newly chosen mode starts in: newest first for the two time stamps, ascending otherwise. */
  function DefaultAscending(mode: int): bool {
    mode != SORT_MODIFIED && mode != SORT_CREATED
  }

  // ---------------------------------------------------------------------
  // The setters, as functions of the settings

  /** `setSortAscending`. */
  function WithSortAscending(s: ViewState, ascending: bool): (r: ViewState)
    ensures r.sortAscending == ascending
    ensures r.manualSort == s.manualSort && r.astridSort == s.astridSort
    ensures r.groupMode == s.groupMode && r.groupAscending == s.groupAscending && r.sortMode == s.sortMode
  {
    s.(sortAscending := ascending)
  }

  /** `setGroupAscending`. */
  function WithGroupAscending(s: ViewState, ascending: bool): (r: ViewState)
    ensures r.groupAscending == ascending
    ensures r.manualSort == s.manualSort && r.astridSort == s.astridSort
    ensures r.groupMode == s.groupMode && r.sortMode == s.sortMode && r.sortAscending == s.sortAscending
  {
    s.(groupAscending := ascending)
  }

  /** `setGroupMode`: grouping turns manual and Astrid sort off; the group direction is reset. */
  function WithGroupMode(s: ViewState, groupMode: int): (r: ViewState)
    ensures r.groupMode == groupMode
    ensures groupMode != GROUP_NONE ==> !r.manualSort && !r.astridSort
    ensures groupMode == GROUP_NONE ==> r.manualSort == s.manualSort && r.astridSort == s.astridSort
    ensures !r.groupAscending <==> groupMode == SORT_MODIFIED || groupMode == SORT_CREATED
    ensures r.sortMode == s.sortMode && r.sortAscending == s.sortAscending
  {
    var cleared := groupMode != GROUP_NONE;
    s.(manualSort := if cleared then false else s.manualSort,
       astridSort := if cleared then false else s.astridSort,
       groupMode := groupMode,
       groupAscending := DefaultAscending(groupMode))
  }

  /** `setSortMode`: choosing a sort mode turns manual and Astrid sort off; the sort direction is reset. */
  function WithSortMode(s: ViewState, sortMode: int): (r: ViewState)
    ensures r.sortMode == sortMode && !r.manualSort && !r.astridSort
    ensures !r.sortAscending <==> sortMode == SORT_MODIFIED || sortMode == SORT_CREATED
    ensures r.groupMode == s.groupMode && r.groupAscending == s.groupAscending
  {
    s.(manualSort := false, astridSort := false, sortMode := sortMode, sortAscending := DefaultAscending(sortMode))
  }

  /** `setManual`: turning manual sort on turns grouping off. */
  function WithManual(s: ViewState, value: bool): (r: ViewState)
    ensures r.manualSort == value
    ensures r.groupMode == if value then GROUP_NONE else s.groupMode
    ensures r.astridSort == s.astridSort && r.groupAscending == s.groupAscending
    ensures r.sortMode == s.sortMode && r.sortAscending == s.sortAscending
  {
    s.(manualSort := value, groupMode := if value then GROUP_NONE else s.groupMode)
  }

  /** `setAstrid`: turning Astrid sort on turns grouping off. */
  function WithAstrid(s: ViewState, value: bool): (r: ViewState)
    ensures r.astridSort == value
    ensures r.groupMode == if value then GROUP_NONE else s.groupMode
    ensures r.manualSort == s.manualSort && r.groupAscending == s.groupAscending
    ensures r.sortMode == s.sortMode && r.sortAscending == s.sortAscending
  {
    s.(astridSort := value, groupMode := if value then GROUP_NONE else s.groupMode)
  }

  /** `forceReload`: the task list must be reloaded when manual or Astrid sort differs from the opening state. */
  function Reloads(initial: ViewState, current: ViewState): bool {
    initial.manualSort != current.manualSort || initial.astridSort != current.astridSort
  }

  // ---------------------------------------------------------------------
  // Properties of the setters

  /** One call of a setter, with its argument. */
  datatype Setter =
    | SortAscending(ascending: bool)
    | GroupAscending(ascending: bool)
    | GroupMode(groupMode: int)
    | SortMode(sortMode: int)
    | Manual(value: bool)
    | Astrid(value: bool)

  function Apply(s: ViewState, c: Setter): ViewState {
    match c
    case SortAscending(a) => WithSortAscending(s, a)
    case GroupAscending(a) => WithGroupAscending(s, a)
    case GroupMode(m) => WithGroupMode(s, m)
    case SortMode(m) => WithSortMode(s, m)
    case Manual(v) => WithManual(s, v)
    case Astrid(v) => WithAstrid(s, v)
  }

  /** The settings after a run of setter calls, in order. */
  function Run(s: ViewState, cs: seq<Setter>): ViewState
    decreases |cs|
  {
    if cs == [] then s else Run(Apply(s, cs[0]), cs[1..])
  }

  /** Grouping excludes manual and Astrid sort. */
  predicate Exclusive(s: ViewState) {
    s.groupMode != GROUP_NONE ==> !s.manualSort && !s.astridSort
  }

  /** Every setter keeps grouping and manual or Astrid sort exclusive. */
  lemma ApplyKeepsExclusive(s: ViewState, c: Setter)
    requires Exclusive(s)
    ensures Exclusive(Apply(s, c))
  {
  }

  /**
   * The setters that choose an ordering (a group mode, a sort mode, manual
   * or Astrid sort) leave the settings exclusive whatever they were before.
   */
  lemma ChoosingMakesExclusive(s: ViewState, c: Setter)
    requires c.GroupMode? || c.SortMode? || (c.Manual? && c.value) || (c.Astrid? && c.value)
    ensures Exclusive(Apply(s, c))
  {
  }

  /** Once exclusive, the settings stay so through any run of setter calls. */
  lemma {:induction false} RunKeepsExclusive(s: ViewState, cs: seq<Setter>)
    requires Exclusive(s)
    ensures Exclusive(Run(s, cs))
    decreases |cs|
  {
    if cs != [] {
      ApplyKeepsExclusive(s, cs[0]);
      RunKeepsExclusive(Apply(s, cs[0]), cs[1..]);
    }
  }

  /** Calling a setter twice with the same argument is the same as calling it once. */
  lemma ApplyIdempotent(s: ViewState, c: Setter)
    ensures Apply(Apply(s, c), c) == Apply(s, c)
  {
  }

  /** Whether a reload is needed depends on manual and Astrid sort only. */
  lemma ReloadsOnSortFlagsOnly(initial: ViewState, a: ViewState, b: ViewState)
    requires a.manualSort == b.manualSort && a.astridSort == b.astridSort
    ensures Reloads(initial, a) == Reloads(initial, b)
  {
  }

  /** A run that never calls `setManual`, `setAstrid`, `setSortMode`, or `setGroupMode` with a real grouping, never changes whether a reload is needed. */
  lemma {:induction false} RunKeepsReload(initial: ViewState, s: ViewState, cs: seq<Setter>)
    requires forall i :: 0 <= i < |cs| ==>
               cs[i].SortAscending? || cs[i].GroupAscending? || (cs[i].GroupMode? && cs[i].groupMode == GROUP_NONE)
    ensures Reloads(initial, Run(s, cs)) == Reloads(initial, s)
    decreases |cs|
  {
    if cs != [] {
      assert cs[0].SortAscending? || cs[0].GroupAscending? || (cs[0].GroupMode? && cs[0].groupMode == GROUP_NONE);
      RunKeepsReload(initial, Apply(s, cs[0]), cs[1..]);
    }
  }

  /** Right after a sort mode is chosen, a reload is needed exactly when the dialog opened with manual or Astrid sort on. */
  lemma SortModeReloads(initial: ViewState, s: ViewState, sortMode: int)
    ensures Reloads(initial, WithSortMode(s, sortMode)) <==> initial.manualSort || initial.astridSort
  {
  }

  /** The opening state needs no reload. */
  lemma NoReloadAtStart(initial: ViewState)
    ensures !Reloads(initial, initial)
  {
  }

  // ---------------------------------------------------------------------
  // The preferences store and the view model

  /** The preferences the settings are persisted in (the app's, or a widget's). */
  class SortPreferences {
    var isManualSort: bool
    var isAstridSort: bool
    var groupMode: int
    var groupAscending: bool
    var sortMode: int
    var sortAscending: bool

    /** The six settings as the preferences hold them. */
    function Snapshot(): ViewState
      reads this
    {
      ViewState(isManualSort, isAstridSort, groupMode, groupAscending, sortMode, sortAscending)
    }

    constructor (s: ViewState)
      ensures Snapshot() == s
    {
      isManualSort := s.manualSort;
      isAstridSort := s.astridSort;
      groupMode := s.groupMode;
      groupAscending := s.groupAscending;
      sortMode := s.sortMode;
      sortAscending := s.sortAscending;
    }
  }

  class SortSettingsViewModel {
    const preferences: SortPreferences
    /** The settings when the dialog opened. */
    const initialState: ViewState
    /** The settings the dialog shows. */
    var viewState: ViewState

    /** The view state mirrors the preferences field by field. */
    ghost predicate Valid()
      reads this, preferences
    {
      viewState == preferences.Snapshot()
    }

    /** The view state starts as a copy of the preferences. */
    constructor (preferences: SortPreferences)
      ensures this.preferences == preferences
      ensures initialState == preferences.Snapshot() && viewState == initialState
      ensures Valid()
    {
      this.preferences := preferences;
      initialState := preferences.Snapshot();
      viewState := preferences.Snapshot();
    }

    /** `forceReload`. */
    function ForceReload(): bool
      reads this
    {
      Reloads(initialState, viewState)
    }

    method SetSortAscending(ascending: bool)
      requires Valid()
      modifies this, preferences
      ensures Valid()
      ensures viewState == WithSortAscending(old(viewState), ascending)
    {
      preferences.sortAscending := ascending;
      viewState := viewState.(sortAscending := ascending);
    }

    method SetGroupAscending(ascending: bool)
      requires Valid()
      modifies this, preferences
      ensures Valid()
      ensures viewState == WithGroupAscending(old(viewState), ascending)
    {
      preferences.groupAscending := ascending;
      viewState := viewState.(groupAscending := ascending);
    }

    method SetGroupMode(groupMode: int)
      requires Valid()
      modifies this, preferences
      ensures Valid()
      ensures viewState == WithGroupMode(old(viewState), groupMode)
    {
      if groupMode != GROUP_NONE {
        preferences.isManualSort := false;
        preferences.isAstridSort := false;
      }
      preferences.groupMode := groupMode;
      var ascending := if groupMode == SORT_MODIFIED || groupMode == SORT_CREATED then false else true;
      preferences.groupAscending := ascending;
      viewState := viewState.(manualSort := preferences.isManualSort, astridSort := preferences.isAstridSort,
                              groupMode := groupMode, groupAscending := ascending);
    }

    method SetSortMode(sortMode: int)
      requires Valid()
      modifies this, preferences
      ensures Valid()
      ensures viewState == WithSortMode(old(viewState), sortMode)
    {
      preferences.isManualSort := false;
      preferences.isAstridSort := false;
      preferences.sortMode := sortMode;
      var ascending := if sortMode == SORT_MODIFIED || sortMode == SORT_CREATED then false else true;
      preferences.sortAscending := ascending;
      viewState := viewState.(manualSort := false, astridSort := false, sortMode := sortMode, sortAscending := ascending);
    }

    method SetManual(value: bool)
      requires Valid()
      modifies this, preferences
      ensures Valid()
      ensures viewState == WithManual(old(viewState), value)
    {
      preferences.isManualSort := value;
      if value {
        preferences.groupMode := GROUP_NONE;
      }
      viewState := viewState.(groupMode := if value then GROUP_NONE else viewState.groupMode, manualSort := value);
    }

    method SetAstrid(value: bool)
      requires Valid()
      modifies this, preferences
      ensures Valid()
      ensures viewState == WithAstrid(old(viewState), value)
    {
      preferences.isAstridSort := value;
      if value {
        preferences.groupMode := GROUP_NONE;
      }
      viewState := viewState.(groupMode := if value then GROUP_NONE else viewState.groupMode, astridSort := value);
    }
  }
}
