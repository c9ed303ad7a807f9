/**
 * The cross-list relocation engine (`TaskMover`): it moves tasks, with their
 * subtrees, into a Google-Tasks list or a CalDAV calendar by tombstoning the
 * old association rows and inserting new ones.
 *
 * Each step the source takes is given twice: as a pure function from the
 * old store contents (`World`) to the new one, and as a method of the class
 * `TaskMover` that makes the DAO calls one by one and is proved to end in
 * the state that function describes.  What the source promises about a
 * move is proved about the functions (see relocation_props.dfy).
 */
module Relocation {
  import opened Wrappers
  import opened TaskStore

  /** A destination list.  Only the first two are valid move destinations. */
  datatype Filter = GtasksFilter(listId: string) | CaldavFilter(uuid: string) | OtherFilter

  /** A call `vtodoCache.move(from, to, row)`: the cached iCalendar object of `row` follows it. */
  datatype CacheMove = CacheMove(from: string, to: string, row: CaldavTask)

  /** Everything a move reads or writes, except the refresh and sync counters. */
  datatype World = World(
    tasks: seq<Task>,
    rows: seq<CaldavTask>,
    placements: seq<Placement>,
    rollups: seq<string>,
    nextUuid: nat,
    cacheMoves: seq<CacheMove>)

  /** The three mutually exclusive states a task can be in. */
  datatype Binding = GoogleBound(row: CaldavTask) | CaldavBound(row: CaldavTask) | Unbound

  // ---------------------------------------------------------------------
  // getSingleFilter

  /** The lists of the given kind that hold a live row of one of `ids`. */
  function ListSet(rows: seq<CaldavTask>, ids: set<int>, kind: Kind): set<string> {
    set c | c in rows && c.task in ids && c.deleted == 0 && c.kind == kind :: c.calendar
  }

  lemma DistinctLists(rows: seq<CaldavTask>, ids: set<int>, kind: Kind)
    ensures var lists := Unseen(ListsOf(rows, ids, kind), {});
            SetOf(lists) == ListSet(rows, ids, kind) && |lists| == |ListSet(rows, ids, kind)| &&
            (|lists| == 1 ==> ListSet(rows, ids, kind) == {lists[0]})
  {
    var lists := Unseen(ListsOf(rows, ids, kind), {});
    assert SetOf(lists) == ListSet(rows, ids, kind);
    DistinctCardinality(lists);
    if |lists| == 1 {
      SingletonSet(ListSet(rows, ids, kind), lists[0]);
    }
  }

  lemma SingletonSet(s: set<string>, x: string)
    requires |s| == 1 && x in s
    ensures s == {x}
  {
    assert |s - {x}| == 0;
  }

  /**
   * `getSingleFilter`: the one list all the given tasks sit in, when they sit
   * in exactly one list of exactly one backend kind.
   */
  function GetSingleFilter(rows: seq<CaldavTask>, ids: seq<int>): (r: Option<Filter>)
    ensures forall l :: r == Some(GtasksFilter(l)) <==>
              ListSet(rows, SetOf(ids), CalDav) == {} && ListSet(rows, SetOf(ids), GoogleTasks) == {l}
    ensures forall l :: r == Some(CaldavFilter(l)) <==>
              ListSet(rows, SetOf(ids), GoogleTasks) == {} && ListSet(rows, SetOf(ids), CalDav) == {l}
    ensures r != Some(OtherFilter)
  {
    var caldavCalendars := Unseen(ListsOf(rows, SetOf(ids), CalDav), {});
    var googleTaskLists := Unseen(ListsOf(rows, SetOf(ids), GoogleTasks), {});
    DistinctLists(rows, SetOf(ids), CalDav);
    DistinctLists(rows, SetOf(ids), GoogleTasks);
    if |caldavCalendars| == 0 then
      if |googleTaskLists| == 1 then Some(GtasksFilter(googleTaskLists[0])) else None
    else if |googleTaskLists| == 0 then
      if |caldavCalendars| == 1 then Some(CaldavFilter(caldavCalendars[0])) else None
    else None
  }

  // ---------------------------------------------------------------------
  // move(task, list): resolving a calendar id to a destination

  function Destination(calendars: map<int, Calendar>, accounts: map<string, Account>, list: int): (r: Option<Filter>)
    ensures r.Some? <==>
              list in calendars && calendars[list].account.Some? && calendars[list].account.value in accounts
    ensures r.Some? ==>
              r.value == (if accounts[calendars[list].account.value].accountType == TYPE_GOOGLE_TASKS
                          then GtasksFilter(calendars[list].uuid) else CaldavFilter(calendars[list].uuid))
  {
    if list !in calendars then None
    else
      var calendar := calendars[list];
      match calendar.account
      case None => None
      case Some(uuid) =>
        if uuid !in accounts then None
        else if accounts[uuid].accountType == TYPE_GOOGLE_TASKS then Some(GtasksFilter(calendar.uuid))
        else Some(CaldavFilter(calendar.uuid))
  }

  // ---------------------------------------------------------------------
  // Strategy dispatch

  /** The binding `performMove` finds: a Google-Tasks row wins over a CalDAV row. */
  function BindingOf(rows: seq<CaldavTask>, id: int): (r: Binding)
    ensures r.GoogleBound? <==> exists c :: c in rows && c.task == id && c.deleted == 0 && c.kind == GoogleTasks
    ensures r.CaldavBound? <==>
              (forall c :: c in rows && c.task == id && c.deleted == 0 ==> c.kind != GoogleTasks) &&
              exists c :: c in rows && c.task == id && c.deleted == 0 && c.kind == CalDav
    ensures r.Unbound? <==> forall c :: c in rows && c.task == id ==> c.deleted != 0
    ensures !r.Unbound? ==> r.row in rows && r.row.task == id && r.row.deleted == 0 &&
                            r.row.kind == (if r.GoogleBound? then GoogleTasks else CalDav)
  {
    match FirstLive(rows, id, GoogleTasks)
    case Some(g) => GoogleBound(g)
    case None =>
      match FirstLive(rows, id, CalDav)
      case Some(c) => CaldavBound(c)
      case None => Unbound
  }

  /** The task's current list is the destination: its strategy returns at once. */
  predicate AlreadyIn(rows: seq<CaldavTask>, id: int, dest: Filter) {
    match BindingOf(rows, id)
    case GoogleBound(g) => dest.GtasksFilter? && g.calendar == dest.listId
    case CaldavBound(c) => dest.CaldavFilter? && c.calendar == dest.uuid
    case Unbound => false
  }

  // ---------------------------------------------------------------------
  // The rows a move inserts

  /** `CaldavTask(task, list, remoteId = null)`, inserted through the Google-Tasks DAO. */
  function GoogleRow(task: int, list: string): CaldavTask {
    CaldavTask(task, list, GoogleTasks, None, None, None, 0)
  }

  function GoogleRows(ids: seq<int>, list: string): seq<CaldavTask> {
    seq(|ids|, i requires 0 <= i < |ids| => GoogleRow(ids[i], list))
  }

  /** `CaldavTask(task, list)` with the `n`-th fresh remote id, and the given remote parent. */
  function MintedRow(task: int, list: string, n: nat, remoteParent: Option<RemoteId>): CaldavTask {
    CaldavTask(task, list, CalDav, Some(Generated(n)), None, remoteParent, 0)
  }

  /** Rows for `ids` with fresh remote ids `n0`, `n0 + 1`, ..., all under the same remote parent. */
  function RowsUnder(ids: seq<int>, list: string, n0: nat, remoteParent: Option<RemoteId>): seq<CaldavTask> {
    seq(|ids|, i requires 0 <= i < |ids| => MintedRow(ids[i], list, n0 + i, remoteParent))
  }

  /** The copy of a CalDAV root row in another calendar: same remote id and object, no remote parent. */
  function CarriedRoot(c: CaldavTask, list: string): CaldavTask {
    CaldavTask(c.task, list, CalDav, c.remoteId, c.obj, None, 0)
  }

  /** The copies of CalDAV child rows in another calendar: remote id, object and remote parent kept. */
  function CarriedRows(children: seq<CaldavTask>, list: string): seq<CaldavTask> {
    seq(|children|, i requires 0 <= i < |children| =>
      CaldavTask(children[i].task, list, CalDav, children[i].remoteId, children[i].obj, children[i].remoteParent, 0))
  }

  function ChildCacheMoves(children: seq<CaldavTask>, from: string, to: string): seq<CacheMove> {
    seq(|children|, i requires 0 <= i < |children| => CacheMove(from, to, children[i]))
  }

  /** The last position before `end` where the task `id` appears. */
  function LastIndexOf(children: seq<Task>, end: int, id: int): (r: Option<nat>)
    requires 0 <= end <= |children|
    ensures r.Some? ==> r.value < end && children[r.value].id == id
    ensures r.None? <==> forall j :: 0 <= j < end ==> children[j].id != id
  {
    if end == 0 then None
    else if children[end - 1].id == id then Some(end - 1)
    else LastIndexOf(children, end - 1, id)
  }

  /** Each child's parent is the root or a child listed before it. */
  predicate ParentBeforeChild(children: seq<Task>, rootId: int) {
    forall i {:trigger children[i].parent} :: 0 <= i < |children| ==>
      children[i].parent == rootId || exists j :: 0 <= j < i && children[j].id == children[i].parent
  }

  /**
   * The remote parent a local child gets when its subtree moves to CalDAV:
   * the remote id of the row built for its parent (None where the source's
   * `!!` would throw).
   */
  function ParentRemote(children: seq<Task>, i: int, rootId: int, rootRemote: RemoteId, n0: nat): Option<RemoteId>
    requires 0 <= i < |children|
  {
    if children[i].parent == rootId then Some(rootRemote)
    else
      match LastIndexOf(children, i, children[i].parent)
      case Some(j) => Some(Generated(n0 + j))
      case None => None
  }

  function LinkedRow(children: seq<Task>, i: int, rootId: int, rootRemote: RemoteId, list: string, n0: nat): CaldavTask
    requires 0 <= i < |children|
  {
    MintedRow(children[i].id, list, n0 + i, ParentRemote(children, i, rootId, rootRemote, n0))
  }

  function LinkedRows(children: seq<Task>, rootId: int, rootRemote: RemoteId, list: string, n0: nat): seq<CaldavTask> {
    seq(|children|, i requires 0 <= i < |children| => LinkedRow(children, i, rootId, rootRemote, list, n0))
  }

  // ---------------------------------------------------------------------
  // The strategies, as functions of the store

  /** `moveToGoogleTasks`: flatten the subtree under the root and bind it to a Google-Tasks list. */
  function ToGoogleTasks(w: World, id: int, children: seq<int>, list: string, top: bool): World {
    match FetchTask(w.tasks, id)
    case None => w
    case Some(_) =>
      w.(tasks := WithParent(w.tasks, id, SetOf(children)),
         rows := w.rows + [GoogleRow(id, list)] + GoogleRows(children, list),
         placements := w.placements + [Placement(id, list, top)])
  }

  /** `moveGoogleTask`: the task is bound to the Google-Tasks row `g`. */
  function GoogleMove(w: World, id: int, g: CaldavTask, dest: Filter, now: int, top: bool): World {
    if dest.GtasksFilter? && g.calendar == dest.listId then w
    else
      var children := Descendants(w.tasks, [id]);
      var w1 := w.(rows := Tombstoned(w.rows, SetOf(children + [id]), now));
      match dest
      case GtasksFilter(list) => BindGoogle(w1, id, children, list, top)
      case CaldavFilter(list) => MintUnder(w1, id, children, list, top)
      case OtherFilter => w1
  }

  /** The Google-Tasks branch of `moveGoogleTask` once the old rows are tombstoned: fresh rows for the root and its children in list `list`. */
  function BindGoogle(w: World, id: int, children: seq<int>, list: string, top: bool): World {
    w.(rows := w.rows + [GoogleRow(id, list)] + GoogleRows(children, list),
       placements := w.placements + [Placement(id, list, top)])
  }

  /** The CalDAV branch of `moveGoogleTask` once the old rows are tombstoned: a row with a new remote id for the root, and rows under it for the children. */
  function MintUnder(w: World, id: int, children: seq<int>, list: string, top: bool): World {
    w.(rows := w.rows + [MintedRow(id, list, w.nextUuid, None)]
               + RowsUnder(children, list, w.nextUuid + 1, Some(Generated(w.nextUuid))),
       placements := w.placements + [Placement(id, list, top)],
       nextUuid := w.nextUuid + 1 + |children|)
  }

  /** `moveCaldavTask`: the task is bound to the CalDAV row `c`. */
  function CaldavMove(w: World, id: int, c: CaldavTask, dest: Filter, now: int, top: bool): World {
    if dest.CaldavFilter? && c.calendar == dest.uuid then w
    else
      var childIds := Descendants(w.tasks, [id]);
      var children := if childIds == [] then [] else LiveRowsOf(w.rows, SetOf(childIds));
      var w1 := w.(rows := Tombstoned(w.rows, SetOf([id] + childIds), now));
      match dest
      case CaldavFilter(list) => Carry(w1, c, children, list, top)
      case GtasksFilter(list) => ToGoogleTasks(w1, id, childIds, list, top)
      case OtherFilter => w1
  }

  /** The CalDAV branch of `moveCaldavTask` once the old rows are tombstoned: copies of the root's and the children's rows in the new calendar, and one cache move per row. */
  function Carry(w: World, c: CaldavTask, children: seq<CaldavTask>, list: string, top: bool): World {
    w.(rows := w.rows + [CarriedRoot(c, list)] + CarriedRows(children, list),
       placements := w.placements + [Placement(c.task, list, top)],
       cacheMoves := w.cacheMoves + [CacheMove(c.calendar, list, c)] + ChildCacheMoves(children, c.calendar, list))
  }

  /** `moveLocalTask`: the task has no live association. */
  function LocalMove(w: World, id: int, dest: Filter, top: bool): World {
    match dest
    case GtasksFilter(list) => ToGoogleTasks(w, id, Descendants(w.tasks, [id]), list, top)
    case CaldavFilter(list) =>
      var children := FetchEach(w.tasks, Descendants(w.tasks, [id]));
      w.(rows := w.rows + [MintedRow(id, list, w.nextUuid, None)]
                 + LinkedRows(children, id, Generated(w.nextUuid), list, w.nextUuid + 1),
         placements := w.placements + [Placement(id, list, top)],
         nextUuid := w.nextUuid + 1 + |children|)
    case OtherFilter => w
  }

  /** `performMove`. */
  function Perform(w: World, id: int, dest: Filter, now: int, top: bool): World {
    match BindingOf(w.rows, id)
    case GoogleBound(g) => GoogleMove(w, id, g, dest, now, top)
    case CaldavBound(c) => CaldavMove(w, id, c, dest, now, top)
    case Unbound => LocalMove(w, id, dest, top)
  }

  /** `performMove` for each task of `roots`, in order. */
  function PerformAll(w: World, roots: seq<Task>, dest: Filter, now: int, top: bool): World
    decreases |roots|
  {
    if roots == [] then w
    else Perform(PerformAll(w, roots[..|roots| - 1], dest, now, top), roots[|roots| - 1].id, dest, now, top)
  }

  lemma PerformAllSnoc(w: World, roots: seq<Task>, i: int, dest: Filter, now: int, top: bool)
    requires 0 <= i < |roots|
    ensures PerformAll(w, roots[..i + 1], dest, now, top) == Perform(PerformAll(w, roots[..i], dest, now, top), roots[i].id, dest, now, top)
  {
    assert roots[..i + 1][..i] == roots[..i];
  }

  function NotReadOnly(tasks: seq<Task>): (r: seq<Task>)
    ensures forall t :: t in r <==> t in tasks && !t.readOnly
  {
    if tasks == [] then []
    else (if tasks[0].readOnly then [] else [tasks[0]]) + NotReadOnly(tasks[1..])
  }

  function IdsOf(tasks: seq<Task>): (r: seq<int>)
    ensures |r| == |tasks| && forall i :: 0 <= i < |tasks| ==> r[i] == tasks[i].id
  {
    seq(|tasks|, i requires 0 <= i < |tasks| => tasks[i].id)
  }

  /**
   * The tasks a batch move processes: requested, not a descendant of a
   * requested task, and not read-only (in table order).
   */
  function Roots(tasks: seq<Task>, ids: seq<int>): (r: seq<Task>)
    ensures forall t :: t in r <==>
              t in tasks && t.id in ids && t.id !in Descendants(tasks, ids) && !t.readOnly
  {
    NotReadOnly(FetchTasks(tasks, SetOf(ids) - SetOf(Descendants(tasks, ids))))
  }

  /** The first step of `move(ids, selectedList)`: the requested tasks that are processed lose their parent. */
  function Detached(w: World, ids: seq<int>): World {
    w.(tasks := WithParent(w.tasks, 0, SetOf(ids) * SetOf(IdsOf(Roots(w.tasks, ids)))))
  }

  /** `move(ids, selectedList)`, without the refresh and sync calls. */
  function BatchMove(w: World, ids: seq<int>, dest: Filter, now: int, top: bool): World {
    var roots := Roots(w.tasks, ids);
    var rootIds := SetOf(IdsOf(roots));
    var w1 := Detached(w, ids);
    var w2 := PerformAll(w1, roots, dest, now, top);
    var w3 := if dest.CaldavFilter? then w2.(rollups := w2.rollups + [dest.uuid]) else w2;
    w3.(tasks := Touched(w3.tasks, rootIds, now))
  }

  // ---------------------------------------------------------------------
  // Remote ids not handed out yet appear in no row

  /** `id` is not a remote id the generator hands out at or after its `n`-th call. */
  predicate Issued(id: Option<RemoteId>, n: nat) {
    id.Some? && id.value.Generated? ==> id.value.n < n
  }

  /** No row names, as its own remote id or as its remote parent, an id the generator has not handed out yet. */
  predicate IssuedBefore(rows: seq<CaldavTask>, n: nat) {
    forall c :: c in rows ==> Issued(c.remoteId, n) && Issued(c.remoteParent, n)
  }

  /** So every remote id the generator hands out next is new to the table. */
  predicate CounterAhead(w: World) {
    IssuedBefore(w.rows, w.nextUuid)
  }

  lemma TombstonedIssued(rows: seq<CaldavTask>, ids: set<int>, now: int, n: nat)
    requires IssuedBefore(rows, n)
    ensures IssuedBefore(Tombstoned(rows, ids, now), n)
  {
    forall c | c in Tombstoned(rows, ids, now) ensures Issued(c.remoteId, n) && Issued(c.remoteParent, n) {
      var i :| 0 <= i < |rows| && Tombstoned(rows, ids, now)[i] == c;
      assert rows[i] in rows;
    }
  }

  lemma IssuedLater(rows: seq<CaldavTask>, n: nat, m: nat)
    requires IssuedBefore(rows, n) && n <= m
    ensures IssuedBefore(rows, m)
  {
  }

  lemma IssuedConcat(a: seq<CaldavTask>, b: seq<CaldavTask>, n: nat)
    requires IssuedBefore(a, n) && IssuedBefore(b, n)
    ensures IssuedBefore(a + b, n)
  {
  }

  lemma ToGoogleTasksCounter(w: World, id: int, children: seq<int>, list: string, top: bool)
    requires CounterAhead(w)
    ensures CounterAhead(ToGoogleTasks(w, id, children, list, top))
  {
    IssuedConcat(w.rows, [GoogleRow(id, list)] + GoogleRows(children, list), w.nextUuid);
    assert w.rows + [GoogleRow(id, list)] + GoogleRows(children, list) == w.rows + ([GoogleRow(id, list)] + GoogleRows(children, list));
  }

  lemma GoogleMoveCounter(w: World, id: int, g: CaldavTask, dest: Filter, now: int, top: bool)
    requires CounterAhead(w)
    ensures CounterAhead(GoogleMove(w, id, g, dest, now, top))
  {
    var children := Descendants(w.tasks, [id]);
    var w1 := w.(rows := Tombstoned(w.rows, SetOf(children + [id]), now));
    TombstonedIssued(w.rows, SetOf(children + [id]), now, w.nextUuid);
    match dest
    case GtasksFilter(list) => BindGoogleCounter(w1, id, children, list, top);
    case CaldavFilter(list) => MintUnderCounter(w1, id, children, list, top);
    case OtherFilter =>
  }

  lemma BindGoogleCounter(w: World, id: int, children: seq<int>, list: string, top: bool)
    requires CounterAhead(w)
    ensures CounterAhead(BindGoogle(w, id, children, list, top))
  {
    IssuedConcat(w.rows, [GoogleRow(id, list)] + GoogleRows(children, list), w.nextUuid);
    assert w.rows + [GoogleRow(id, list)] + GoogleRows(children, list) == w.rows + ([GoogleRow(id, list)] + GoogleRows(children, list));
  }

  /** The root takes the next remote id and its children the ones after it, all past what the table holds. */
  lemma MintUnderCounter(w: World, id: int, children: seq<int>, list: string, top: bool)
    requires CounterAhead(w)
    ensures CounterAhead(MintUnder(w, id, children, list, top))
  {
    var n' := w.nextUuid + 1 + |children|;
    var added := [MintedRow(id, list, w.nextUuid, None)] + RowsUnder(children, list, w.nextUuid + 1, Some(Generated(w.nextUuid)));
    IssuedLater(w.rows, w.nextUuid, n');
    assert IssuedBefore(added, n') by {
      forall c | c in added ensures Issued(c.remoteId, n') && Issued(c.remoteParent, n') {
        var i :| 0 <= i < |added| && added[i] == c;
      }
    }
    IssuedConcat(w.rows, added, n');
    assert w.rows + [MintedRow(id, list, w.nextUuid, None)] + RowsUnder(children, list, w.nextUuid + 1, Some(Generated(w.nextUuid)))
        == w.rows + added;
  }

  /** The copies `Carry` appends keep the remote ids of rows already in the table. */
  lemma CaldavMoveCounter(w: World, id: int, c: CaldavTask, dest: Filter, now: int, top: bool)
    requires CounterAhead(w) && c in w.rows
    ensures CounterAhead(CaldavMove(w, id, c, dest, now, top))
  {
    var childIds := Descendants(w.tasks, [id]);
    var children := if childIds == [] then [] else LiveRowsOf(w.rows, SetOf(childIds));
    var w1 := w.(rows := Tombstoned(w.rows, SetOf([id] + childIds), now));
    TombstonedIssued(w.rows, SetOf([id] + childIds), now, w.nextUuid);
    match dest
    case CaldavFilter(list) =>
      if childIds != [] {
        LiveRowsOfMembers(w.rows, SetOf(childIds));
      }
      var added := [CarriedRoot(c, list)] + CarriedRows(children, list);
      assert IssuedBefore(added, w.nextUuid) by {
        forall r | r in added ensures Issued(r.remoteId, w.nextUuid) && Issued(r.remoteParent, w.nextUuid) {
          var i :| 0 <= i < |added| && added[i] == r;
          if i > 0 {
            assert children[i - 1] in w.rows;
          }
        }
      }
      IssuedConcat(w1.rows, added, w.nextUuid);
      assert w1.rows + [CarriedRoot(c, list)] + CarriedRows(children, list) == w1.rows + added;
    case GtasksFilter(list) =>
      ToGoogleTasksCounter(w1, id, childIds, list, top);
    case OtherFilter =>
  }

  lemma LinkedRowsIssued(children: seq<Task>, rootId: int, n: nat, list: string)
    ensures IssuedBefore(LinkedRows(children, rootId, Generated(n), list, n + 1), n + 1 + |children|)
  {
    var rows := LinkedRows(children, rootId, Generated(n), list, n + 1);
    forall c | c in rows ensures Issued(c.remoteId, n + 1 + |children|) && Issued(c.remoteParent, n + 1 + |children|) {
      var i :| 0 <= i < |rows| && rows[i] == c;
    }
  }

  lemma LocalMoveCounter(w: World, id: int, dest: Filter, top: bool)
    requires CounterAhead(w)
    ensures CounterAhead(LocalMove(w, id, dest, top))
  {
    match dest
    case GtasksFilter(list) =>
      ToGoogleTasksCounter(w, id, Descendants(w.tasks, [id]), list, top);
    case CaldavFilter(list) =>
      var children := FetchEach(w.tasks, Descendants(w.tasks, [id]));
      var n' := w.nextUuid + 1 + |children|;
      var linked := LinkedRows(children, id, Generated(w.nextUuid), list, w.nextUuid + 1);
      LinkedRowsIssued(children, id, w.nextUuid, list);
      IssuedLater(w.rows, w.nextUuid, n');
      IssuedConcat(w.rows, [MintedRow(id, list, w.nextUuid, None)], n');
      IssuedConcat(w.rows + [MintedRow(id, list, w.nextUuid, None)], linked, n');
    case OtherFilter =>
  }

  lemma PerformCounter(w: World, id: int, dest: Filter, now: int, top: bool)
    requires CounterAhead(w)
    ensures CounterAhead(Perform(w, id, dest, now, top))
  {
    match BindingOf(w.rows, id)
    case GoogleBound(g) => GoogleMoveCounter(w, id, g, dest, now, top);
    case CaldavBound(c) => CaldavMoveCounter(w, id, c, dest, now, top);
    case Unbound => LocalMoveCounter(w, id, dest, top);
  }

  // ---------------------------------------------------------------------
  // The loop of moveLocalTask that builds the child rows

  /**
   * Builds the rows of a local subtree moving to CalDAV, keyed by task id as
   * the source's `HashMap` is; fails (the source's `!!` throws) exactly when
   * a child comes before its parent.
   */
  method BuildLinkedRows(children: seq<Task>, rootId: int, rootRemote: RemoteId, listId: string, uuid0: nat)
    returns (r: Option<seq<CaldavTask>>)
    ensures r.Some? <==> ParentBeforeChild(children, rootId)
    ensures r.Some? ==> r.value == LinkedRows(children, rootId, rootRemote, listId, uuid0)
  {
    var tasks: map<int, CaldavTask> := map[];
    var rows: seq<CaldavTask> := [];
    var i := 0;
    while i < |children|
      invariant 0 <= i <= |children|
      invariant rows == LinkedRows(children[..i], rootId, rootRemote, listId, uuid0)
      invariant Tracks(tasks, children, i, uuid0)
      invariant ParentBeforeChild(children[..i], rootId)
    {
      var child := children[i];
      var newTask := MintedRow(child.id, listId, uuid0 + i, None);
      var parent := child.parent;
      if parent == rootId {
        newTask := newTask.(remoteParent := Some(rootRemote));
      } else if parent in tasks {
        newTask := newTask.(remoteParent := tasks[parent].remoteId);
      } else {
        ParentMissing(children, i, rootId);
        return None;
      }
      LinkedRowsSnoc(children, i, rootId, rootRemote, listId, uuid0);
      TracksStep(tasks, children, i, uuid0, newTask);
      ParentBeforeChildStep(children, i, rootId);
      tasks := tasks[child.id := newTask];
      rows := rows + [newTask];
      i := i + 1;
    }
    assert children[..i] == children;
    return Some(rows);
  }

  /** A child whose parent is neither the root nor listed before it breaks the order. */
  lemma ParentMissing(children: seq<Task>, i: int, rootId: int)
    requires 0 <= i < |children| && children[i].parent != rootId
    requires LastIndexOf(children, i, children[i].parent).None?
    ensures !ParentBeforeChild(children, rootId)
  {
  }

  lemma ParentBeforeChildStep(children: seq<Task>, i: int, rootId: int)
    requires 0 <= i < |children| && ParentBeforeChild(children[..i], rootId)
    requires children[i].parent == rootId || LastIndexOf(children, i, children[i].parent).Some?
    ensures ParentBeforeChild(children[..i + 1], rootId)
  {
    var done := children[..i + 1];
    forall k | 0 <= k < i + 1
      ensures done[k].parent == rootId || exists j :: 0 <= j < k && done[j].id == done[k].parent
    {
      if k < i {
        assert done[k] == children[..i][k];
        if children[k].parent != rootId {
          var j :| 0 <= j < k && children[..i][j].id == children[..i][k].parent;
          assert done[j] == children[..i][j];
        }
      } else if children[i].parent != rootId {
        var j := LastIndexOf(children, i, children[i].parent).value;
        assert done[j] == children[j];
      }
    }
  }

  /** The map of `BuildLinkedRows` holds, for each task seen so far, the row built for its last occurrence. */
  ghost predicate Tracks(tasks: map<int, CaldavTask>, children: seq<Task>, i: int, uuid0: nat)
    requires 0 <= i <= |children|
  {
    forall c :: (c in tasks <==> LastIndexOf(children, i, c).Some?) &&
                (c in tasks ==> tasks[c].remoteId == Some(Generated(uuid0 + LastIndexOf(children, i, c).value)))
  }

  lemma TracksStep(tasks: map<int, CaldavTask>, children: seq<Task>, i: int, uuid0: nat, row: CaldavTask)
    requires 0 <= i < |children| && Tracks(tasks, children, i, uuid0)
    requires row.remoteId == Some(Generated(uuid0 + i))
    ensures Tracks(tasks[children[i].id := row], children, i + 1, uuid0)
  {
    var next := tasks[children[i].id := row];
    forall c
      ensures (c in next <==> LastIndexOf(children, i + 1, c).Some?) &&
              (c in next ==> next[c].remoteId == Some(Generated(uuid0 + LastIndexOf(children, i + 1, c).value)))
    {
      assert LastIndexOf(children, i + 1, c) ==
             if children[i].id == c then Some(i) else LastIndexOf(children, i, c);
    }
  }

  lemma LinkedRowsSnoc(children: seq<Task>, i: int, rootId: int, rootRemote: RemoteId, listId: string, uuid0: nat)
    requires 0 <= i < |children|
    ensures LinkedRows(children[..i + 1], rootId, rootRemote, listId, uuid0) ==
            LinkedRows(children[..i], rootId, rootRemote, listId, uuid0) + [LinkedRow(children, i, rootId, rootRemote, listId, uuid0)]
  {
    var pre, pre1 := children[..i], children[..i + 1];
    forall k | 0 <= k <= i
      ensures LinkedRow(pre1, k, rootId, rootRemote, listId, uuid0) ==
              LinkedRow(children, k, rootId, rootRemote, listId, uuid0)
    {
      LastIndexOfPrefix(children, i + 1, k, children[k].parent);
    }
    forall k | 0 <= k < i
      ensures LinkedRow(pre, k, rootId, rootRemote, listId, uuid0) ==
              LinkedRow(children, k, rootId, rootRemote, listId, uuid0)
    {
      LastIndexOfPrefix(children, i, k, children[k].parent);
    }
  }

  lemma {:induction false} LastIndexOfPrefix(children: seq<Task>, n: int, end: int, id: int)
    requires 0 <= end <= n <= |children|
    ensures LastIndexOf(children[..n], end, id) == LastIndexOf(children, end, id)
    decreases end
  {
    if end > 0 {
      assert children[..n][end - 1] == children[end - 1];
      LastIndexOfPrefix(children, n, end - 1, id);
    }
  }

  // ---------------------------------------------------------------------
  // The engine

  class TaskMover {
    const db: Database
    /** The "add tasks to top" preference every ordered insertion reads. */
    const addTasksToTop: bool
    /** How many remote ids the uuid generator has handed out. */
    var nextUuid: nat
    /** The calls made to the cached-object store, in order. */
    var cacheMoves: seq<CacheMove>
    /** Calls to `localBroadcastManager.broadcastRefresh()`. */
    var refreshes: nat
    /** Calls to `syncAdapters.sync()`. */
    var syncs: nat

    ghost predicate Valid()
      reads this, db
    {
      db.Valid() && CounterAhead(State())
    }

    function State(): World
      reads this, db
    {
      World(db.tasks, db.caldavTasks, db.placements, db.rollups, nextUuid, cacheMoves)
    }

    /** `issued` counts the remote ids handed out before; the table names none after them. */
    constructor (db: Database, addTasksToTop: bool, issued: nat)
      requires db.Valid() && IssuedBefore(db.caldavTasks, issued)
      ensures Valid() && this.db == db && this.addTasksToTop == addTasksToTop
      ensures nextUuid == issued && cacheMoves == [] && refreshes == 0 && syncs == 0
    {
      this.db := db;
      this.addTasksToTop := addTasksToTop;
      nextUuid := issued;
      cacheMoves := [];
      refreshes := 0;
      syncs := 0;
    }

    /** The constructor `CaldavTask(task, list)`, which draws a fresh remote id. */
    method NewCaldavTask(task: int, list: string) returns (row: CaldavTask)
      modifies this`nextUuid
      ensures row == MintedRow(task, list, old(nextUuid), None)
      ensures nextUuid == old(nextUuid) + 1
    {
      row := MintedRow(task, list, nextUuid, None);
      nextUuid := nextUuid + 1;
    }

    /** `move(task, list)`: resolve the calendar and its account, then move the one task. */
    method MoveToList(task: int, list: int, now: int)
      requires Valid()
      modifies this`nextUuid, this`cacheMoves, this`refreshes, this`syncs
      modifies db`tasks, db`caldavTasks, db`placements, db`rollups
      ensures Valid()
      ensures Destination(old(db.calendars), old(db.accounts), list).None? ==>
                State() == old(State()) && refreshes == old(refreshes) && syncs == old(syncs)
      ensures Destination(old(db.calendars), old(db.accounts), list).Some? ==>
                State() == BatchMove(old(State()), [task], Destination(old(db.calendars), old(db.accounts), list).value,
                                     now, addTasksToTop) &&
                refreshes == old(refreshes) + 1 && syncs == old(syncs) + 1
    {
      if list !in db.calendars { return; }
      var calendar := db.calendars[list];
      if calendar.account.None? || calendar.account.value !in db.accounts { return; }
      var account := db.accounts[calendar.account.value];
      var selectedList := if account.accountType == TYPE_GOOGLE_TASKS
                          then GtasksFilter(calendar.uuid) else CaldavFilter(calendar.uuid);
      Move([task], selectedList, now);
    }

    /** `move(ids, selectedList)`. */
    method Move(ids: seq<int>, selectedList: Filter, now: int)
      requires Valid()
      modifies this`nextUuid, this`cacheMoves, this`refreshes, this`syncs
      modifies db`tasks, db`caldavTasks, db`placements, db`rollups
      ensures Valid()
      ensures State() == BatchMove(old(State()), ids, selectedList, now, addTasksToTop)
      ensures refreshes == old(refreshes) + 1 && syncs == old(syncs) + 1
    {
      ghost var w0 := State();
      var descendants := Descendants(db.tasks, ids);
      var tasks := NotReadOnly(FetchTasks(db.tasks, SetOf(ids) - SetOf(descendants)));
      assert tasks == Roots(w0.tasks, ids);
      var taskIds := IdsOf(tasks);
      db.SetParent(0, SetOf(ids) * SetOf(taskIds));
      ghost var start := State();
      assert start == Detached(w0, ids);
      PerformMoves(tasks, selectedList, now);
      ghost var w2 := State();
      if selectedList.CaldavFilter? {
        db.UpdateParents(selectedList.uuid);
      }
      assert State() == if selectedList.CaldavFilter? then w2.(rollups := w2.rollups + [selectedList.uuid]) else w2;
      db.Touch(SetOf(taskIds), now);
      refreshes := refreshes + 1;
      syncs := syncs + 1;
    }

    /** `tasks.forEach { performMove(it, selectedList) }`. */
    method PerformMoves(tasks: seq<Task>, selectedList: Filter, now: int)
      requires Valid()
      modifies this`nextUuid, this`cacheMoves, db`tasks, db`caldavTasks, db`placements
      ensures Valid()
      ensures State() == PerformAll(old(State()), tasks, selectedList, now, addTasksToTop)
    {
      ghost var w0 := State();
      var i := 0;
      while i < |tasks|
        invariant 0 <= i <= |tasks|
        invariant Valid()
        invariant State() == PerformAll(w0, tasks[..i], selectedList, now, addTasksToTop)
      {
        PerformAllSnoc(w0, tasks, i, selectedList, now, addTasksToTop);
        PerformMove(tasks[i], selectedList, now);
        i := i + 1;
      }
      assert tasks[..i] == tasks;
    }

    /** `performMove`: pick the strategy from the task's current binding. */
    method PerformMove(task: Task, selectedList: Filter, now: int)
      requires Valid()
      modifies this`nextUuid, this`cacheMoves, db`tasks, db`caldavTasks, db`placements
      ensures Valid()
      ensures State() == Perform(old(State()), task.id, selectedList, now, addTasksToTop)
    {
      var googleTask := FirstLive(db.caldavTasks, task.id, GoogleTasks);
      if googleTask.Some? {
        MoveGoogleTask(task, googleTask.value, selectedList, now);
        return;
      }
      var caldavTask := FirstLive(db.caldavTasks, task.id, CalDav);
      if caldavTask.Some? {
        MoveCaldavTask(task, caldavTask.value, selectedList, now);
        return;
      }
      MoveLocalTask(task, selectedList);
    }

    method MoveGoogleTask(task: Task, googleTask: CaldavTask, selected: Filter, now: int)
      requires Valid()
      modifies this`nextUuid, db`caldavTasks, db`placements
      ensures Valid()
      ensures State() == GoogleMove(old(State()), task.id, googleTask, selected, now, addTasksToTop)
    {
      GoogleMoveCounter(State(), task.id, googleTask, selected, now, addTasksToTop);
      if selected.GtasksFilter? && googleTask.calendar == selected.listId {
        return;
      }
      var id := task.id;
      var children := Descendants(db.tasks, [id]);
      db.MarkDeleted(SetOf(children + [id]), now);
      match selected {
        case GtasksFilter(listId) =>
          InsertGoogleRows(id, children, listId);
        case CaldavFilter(listId) =>
          InsertMinted(id, children, listId);
        case OtherFilter =>
      }
    }

    /** Binds the root and its children to Google-Tasks list `listId`. */
    method InsertGoogleRows(id: int, children: seq<int>, listId: string)
      modifies db`caldavTasks, db`placements
      ensures State() == BindGoogle(old(State()), id, children, listId, addTasksToTop)
    {
      db.Insert(GoogleRow(id, listId), addTasksToTop);
      if children != [] {
        db.InsertAll(GoogleRows(children, listId));
      }
    }

    /** Binds the root to CalDAV calendar `listId` under a new remote id, and its children under the root. */
    method InsertMinted(id: int, children: seq<int>, listId: string)
      modifies this`nextUuid, db`caldavTasks, db`placements
      ensures State() == MintUnder(old(State()), id, children, listId, addTasksToTop)
    {
      var newParent := NewCaldavTask(id, listId);
      db.Insert(newParent, addTasksToTop);
      var newChildren := RowsUnder(children, listId, nextUuid, newParent.remoteId);
      nextUuid := nextUuid + |children|;
      db.InsertAll(newChildren);
    }

    method MoveCaldavTask(task: Task, caldavTask: CaldavTask, selected: Filter, now: int)
      requires Valid() && caldavTask in db.caldavTasks
      modifies this`cacheMoves, db`tasks, db`caldavTasks, db`placements
      ensures Valid()
      ensures State() == CaldavMove(old(State()), task.id, caldavTask, selected, now, addTasksToTop)
    {
      CaldavMoveCounter(State(), task.id, caldavTask, selected, now, addTasksToTop);
      if selected.CaldavFilter? && caldavTask.calendar == selected.uuid {
        return;
      }
      var id := task.id;
      var childIds := Descendants(db.tasks, [id]);
      var toDelete := [id];
      var children: seq<CaldavTask> := [];
      if childIds != [] {
        children := LiveRowsOf(db.caldavTasks, SetOf(childIds));
        toDelete := toDelete + childIds;
      }
      assert toDelete == [id] + childIds;
      db.MarkDeleted(SetOf(toDelete), now);
      match selected {
        case CaldavFilter(listId) =>
          CarryRows(caldavTask, children, listId);
        case GtasksFilter(listId) =>
          MoveToGoogleTasks(id, childIds, listId);
        case OtherFilter =>
      }
    }

    /** Re-creates the moved rows in calendar `listId` and queues one cache move for each. */
    method CarryRows(caldavTask: CaldavTask, children: seq<CaldavTask>, listId: string)
      modifies this`cacheMoves, db`caldavTasks, db`placements
      ensures State() == Carry(old(State()), caldavTask, children, listId, addTasksToTop)
    {
      var from := caldavTask.calendar;
      var newParent := CarriedRoot(caldavTask, listId);
      cacheMoves := cacheMoves + [CacheMove(from, listId, caldavTask)];
      db.Insert(newParent, addTasksToTop);
      if children != [] {
        cacheMoves := cacheMoves + ChildCacheMoves(children, from, listId);
        db.InsertAll(CarriedRows(children, listId));
      }
    }

    method MoveLocalTask(task: Task, selected: Filter)
      requires Valid()
      modifies this`nextUuid, db`tasks, db`caldavTasks, db`placements
      ensures Valid()
      ensures State() == LocalMove(old(State()), task.id, selected, addTasksToTop)
    {
      ghost var w0 := State();
      LocalMoveCounter(w0, task.id, selected, addTasksToTop);
      match selected {
        case GtasksFilter(listId) =>
          var children := Descendants(db.tasks, [task.id]);
          assert LocalMove(w0, task.id, selected, addTasksToTop) == ToGoogleTasks(w0, task.id, children, listId, addTasksToTop);
          MoveToGoogleTasks(task.id, children, listId);
        case CaldavFilter(listId) =>
          LinkLocalSubtree(task.id, listId);
        case OtherFilter =>
      }
    }

    /** The CalDAV branch of `moveLocalTask`: a fresh root row and the linked child rows. */
    method LinkLocalSubtree(id: int, listId: string)
      requires Valid()
      modifies this`nextUuid, db`caldavTasks, db`placements
      ensures Valid()
      ensures State() == LocalMove(old(State()), id, CaldavFilter(listId), addTasksToTop)
    {
      ghost var w0 := State();
      LocalMoveCounter(w0, id, CaldavFilter(listId), addTasksToTop);
      var children := FetchEach(db.tasks, Descendants(db.tasks, [id]));
      ChildrenFollowParents(db.tasks, id);
      InsertLinked(id, children, listId);
    }

    /**
     * Inserts the fresh root row and the rows `moveLocalTask` builds for the
     * children, which list every parent before its own children.
     */
    method InsertLinked(id: int, children: seq<Task>, listId: string)
      requires ParentBeforeChild(children, id)
      modifies this`nextUuid, db`caldavTasks, db`placements
      ensures State() == old(State()).(rows := old(db.caldavTasks) + [MintedRow(id, listId, old(nextUuid), None)]
                                         + LinkedRows(children, id, Generated(old(nextUuid)), listId, old(nextUuid) + 1),
                                      placements := old(db.placements) + [Placement(id, listId, addTasksToTop)],
                                      nextUuid := old(nextUuid) + 1 + |children|)
    {
      var root := NewCaldavTask(id, listId);
      var built := BuildLinkedRows(children, id, root.remoteId.value, listId, nextUuid);
      nextUuid := nextUuid + |children|;
      db.Insert(root, addTasksToTop);
      db.InsertAll(built.value);
    }

    method MoveToGoogleTasks(id: int, children: seq<int>, listId: string)
      requires Valid()
      modifies db`tasks, db`caldavTasks, db`placements
      ensures Valid()
      ensures State() == ToGoogleTasks(old(State()), id, children, listId, addTasksToTop)
    {
      ToGoogleTasksCounter(State(), id, children, listId, addTasksToTop);
      var task := FetchTask(db.tasks, id);
      if task.None? {
        return;
      }
      db.SetParent(id, SetOf(children));
      db.Insert(GoogleRow(id, listId), addTasksToTop);
      if children != [] {
        db.InsertAll(GoogleRows(children, listId));
      }
    }
  }

  /**
   * The descendants `getChildren` returns, fetched one by one, list every
   * parent before its children, so the `!!` of moveLocalTask never throws.
   */
  lemma ChildrenFollowParents(tasks: seq<Task>, id: int)
    requires WellFormed(tasks)
    ensures ParentBeforeChild(FetchEach(tasks, Descendants(tasks, [id])), id)
  {
    var d := Descendants(tasks, [id]);
    var children := FetchEach(tasks, d);
    FetchDescendantsLength(tasks, [id]);
    forall i | 0 <= i < |children|
      ensures children[i].parent == id || exists j :: 0 <= j < i && children[j].id == children[i].parent
    {
      DescendantsParentFirst(tasks, [id], i);
      FetchDescendantAt(tasks, [id], i);
      var p := children[i].parent;
      if p != id {
        var j :| 0 <= j < i && d[j] == p;
        FetchDescendantAt(tasks, [id], j);
        assert children[j].id == p;
      }
    }
  }
}
