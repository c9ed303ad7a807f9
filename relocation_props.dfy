/**
 * What a move promises, proved about the functions of `Relocation` that
 * the methods of `TaskMover` are proved to follow: after a move each moved
 * task has exactly one live association, in the destination list; the old
 * associations are tombstoned with one timestamp; hierarchy links are kept
 * or rebuilt; moving a task to the list it is in changes nothing.
 */
module RelocationProps {
  import opened Wrappers
  import opened TaskStore
  import opened Relocation

  // ---------------------------------------------------------------------
  // Live rows after tombstoning and appending

  /** The task each row binds, in row order. */
  function TasksOf(rows: seq<CaldavTask>): seq<int> {
    seq(|rows|, i requires 0 <= i < |rows| => rows[i].task)
  }

  predicate AllLive(rows: seq<CaldavTask>) {
    forall i :: 0 <= i < |rows| ==> rows[i].deleted == 0
  }

  /** The old rows are all still there, in place: those of `moved` stamped with `now`, the rest untouched. */
  predicate Tombstones(before: seq<CaldavTask>, after: seq<CaldavTask>, moved: set<int>, now: int) {
    |before| <= |after| &&
    forall i :: 0 <= i < |before| ==>
      after[i] == if before[i].task in moved then before[i].(deleted := now) else before[i]
  }

  lemma {:induction false} NoRowsOf(rows: seq<CaldavTask>, x: int)
    requires forall i :: 0 <= i < |rows| ==> rows[i].task != x
    ensures LiveRows(rows, x) == []
  {
    if rows != [] {
      NoRowsOf(rows[1..], x);
    }
  }

  /** A live row whose task no other row binds is that task's only live row. */
  lemma {:induction false} SoleLiveRow(rows: seq<CaldavTask>, k: int)
    requires AllLive(rows) && Distinct(TasksOf(rows)) && 0 <= k < |rows|
    ensures LiveRows(rows, rows[k].task) == [rows[k]]
  {
    var x := rows[k].task;
    if k == 0 {
      forall i | 0 <= i < |rows[1..]| ensures rows[1..][i].task != x {
        assert TasksOf(rows)[0] != TasksOf(rows)[i + 1];
      }
      NoRowsOf(rows[1..], x);
    } else {
      assert TasksOf(rows)[0] != TasksOf(rows)[k];
      assert Distinct(TasksOf(rows[1..])) by {
        assert TasksOf(rows[1..]) == TasksOf(rows)[1..];
      }
      SoleLiveRow(rows[1..], k - 1);
    }
  }

  /**
   * Appending live rows with distinct tasks, all in `moved`, to a table in
   * which no task of `moved` has a live row binds each of those tasks to its
   * new row alone and leaves every other task as it was.
   */
  lemma Rebound(prefix: seq<CaldavTask>, added: seq<CaldavTask>, moved: set<int>)
    requires AllLive(added) && Distinct(TasksOf(added))
    requires forall i :: 0 <= i < |added| ==> added[i].task in moved
    requires forall x :: x in moved ==> LiveRows(prefix, x) == []
    ensures forall k :: 0 <= k < |added| ==> LiveRows(prefix + added, added[k].task) == [added[k]]
    ensures forall x :: x !in moved ==> LiveRows(prefix + added, x) == LiveRows(prefix, x)
  {
    forall k | 0 <= k < |added|
      ensures LiveRows(prefix + added, added[k].task) == [added[k]]
    {
      LiveRowsAppend(prefix, added, added[k].task);
      SoleLiveRow(added, k);
    }
    forall x | x !in moved
      ensures LiveRows(prefix + added, x) == LiveRows(prefix, x)
    {
      LiveRowsAppend(prefix, added, x);
      NoRowsOf(added, x);
    }
  }

  lemma {:induction false} TombstonedDead(rows: seq<CaldavTask>, moved: set<int>, now: int, x: int)
    requires x in moved && now != 0
    ensures LiveRows(Tombstoned(rows, moved, now), x) == []
  {
    if rows != [] {
      assert Tombstoned(rows, moved, now)[1..] == Tombstoned(rows[1..], moved, now);
      TombstonedDead(rows[1..], moved, now, x);
    }
  }

  lemma {:induction false} TombstonedElsewhere(rows: seq<CaldavTask>, moved: set<int>, now: int, x: int)
    requires x !in moved
    ensures LiveRows(Tombstoned(rows, moved, now), x) == LiveRows(rows, x)
  {
    if rows != [] {
      assert Tombstoned(rows, moved, now)[1..] == Tombstoned(rows[1..], moved, now);
      TombstonedElsewhere(rows[1..], moved, now, x);
    }
  }

  /** `markDeleted(ids, now)`: no task of `ids` keeps a live row, every other task keeps its own. */
  lemma MarkDeletedKills(rows: seq<CaldavTask>, moved: set<int>, now: int)
    requires now != 0
    ensures forall x :: x in moved ==> LiveRows(Tombstoned(rows, moved, now), x) == []
    ensures forall x :: x !in moved ==> LiveRows(Tombstoned(rows, moved, now), x) == LiveRows(rows, x)
  {
    forall x | x in moved ensures LiveRows(Tombstoned(rows, moved, now), x) == [] {
      TombstonedDead(rows, moved, now, x);
    }
    forall x | x !in moved ensures LiveRows(Tombstoned(rows, moved, now), x) == LiveRows(rows, x) {
      TombstonedElsewhere(rows, moved, now, x);
    }
  }

  lemma DistinctCons(id: int, children: seq<int>)
    requires Distinct(children) && id !in children
    ensures Distinct([id] + children)
  {
    forall i, j | 0 <= i < j < |[id] + children| ensures ([id] + children)[i] != ([id] + children)[j] {
      if i == 0 {
        assert ([id] + children)[j] == children[j - 1];
      }
    }
  }

  // ---------------------------------------------------------------------
  // Google-Tasks rows

  /**
   * The rows `CaldavTask(x, list, remoteId = null)` for a root and its
   * children, appended where none of them has a live row, bind each of them
   * to `list` alone, with no remote id.
   */
  lemma GoogleRowsBind(prefix: seq<CaldavTask>, id: int, children: seq<int>, list: string)
    requires Distinct(children) && id !in children
    requires forall x :: x in [id] + children ==> LiveRows(prefix, x) == []
    ensures forall x :: x in [id] + children ==>
              LiveRows(prefix + [GoogleRow(id, list)] + GoogleRows(children, list), x) ==
              [CaldavTask(x, list, GoogleTasks, None, None, None, 0)]
    ensures forall x :: x !in [id] + children ==>
              LiveRows(prefix + [GoogleRow(id, list)] + GoogleRows(children, list), x) == LiveRows(prefix, x)
  {
    var added := [GoogleRow(id, list)] + GoogleRows(children, list);
    var all := [id] + children;
    assert prefix + [GoogleRow(id, list)] + GoogleRows(children, list) == prefix + added;
    assert TasksOf(added) == all;
    DistinctCons(id, children);
    Rebound(prefix, added, SetOf(all));
    forall x | x in all
      ensures LiveRows(prefix + added, x) == [CaldavTask(x, list, GoogleTasks, None, None, None, 0)]
    {
      var k :| 0 <= k < |all| && all[k] == x;
      assert added[k].task == x;
    }
  }

  // ---------------------------------------------------------------------
  // moveGoogleTask

  /** Google-Tasks list to another Google-Tasks list. */
  lemma GoogleToGoogle(w: World, id: int, g: CaldavTask, list: string, now: int, top: bool, w': World)
    requires g.calendar != list && now != 0
    requires id !in Descendants(w.tasks, [id])
    requires w' == GoogleMove(w, id, g, GtasksFilter(list), now, top)
    ensures Tombstones(w.rows, w'.rows, SetOf([id] + Descendants(w.tasks, [id])), now)
    ensures forall x :: x in [id] + Descendants(w.tasks, [id]) ==>
              LiveRows(w'.rows, x) == [CaldavTask(x, list, GoogleTasks, None, None, None, 0)]
    ensures forall x :: x !in [id] + Descendants(w.tasks, [id]) ==> LiveRows(w'.rows, x) == LiveRows(w.rows, x)
    ensures w'.tasks == w.tasks && w'.placements == w.placements + [Placement(id, list, top)]
    ensures w'.nextUuid == w.nextUuid && w'.cacheMoves == w.cacheMoves
  {
    var children := Descendants(w.tasks, [id]);
    var moved := SetOf([id] + children);
    assert SetOf(children + [id]) == moved;
    MarkDeletedKills(w.rows, moved, now);
    GoogleRowsBind(Tombstoned(w.rows, moved, now), id, children, list);
  }

  /**
   * Rows with fresh remote ids `n`, `n + 1`, ... for a root and its
   * children, each child under the root's remote id, appended where none of
   * them has a live row.
   */
  lemma MintedRowsBind(prefix: seq<CaldavTask>, id: int, children: seq<int>, list: string, n: nat)
    requires Distinct(children) && id !in children
    requires forall x :: x in [id] + children ==> LiveRows(prefix, x) == []
    ensures LiveRows(prefix + [MintedRow(id, list, n, None)] + RowsUnder(children, list, n + 1, Some(Generated(n))), id) ==
            [MintedRow(id, list, n, None)]
    ensures forall k :: 0 <= k < |children| ==>
              LiveRows(prefix + [MintedRow(id, list, n, None)] + RowsUnder(children, list, n + 1, Some(Generated(n))), children[k]) ==
              [MintedRow(children[k], list, n + 1 + k, Some(Generated(n)))]
    ensures forall x :: x !in [id] + children ==>
              LiveRows(prefix + [MintedRow(id, list, n, None)] + RowsUnder(children, list, n + 1, Some(Generated(n))), x) ==
              LiveRows(prefix, x)
  {
    var added := [MintedRow(id, list, n, None)] + RowsUnder(children, list, n + 1, Some(Generated(n)));
    var all := [id] + children;
    assert prefix + [MintedRow(id, list, n, None)] + RowsUnder(children, list, n + 1, Some(Generated(n))) == prefix + added;
    assert TasksOf(added) == all;
    DistinctCons(id, children);
    Rebound(prefix, added, SetOf(all));
    assert added[0].task == id;
    forall k | 0 <= k < |children|
      ensures LiveRows(prefix + added, children[k]) == [MintedRow(children[k], list, n + 1 + k, Some(Generated(n)))]
    {
      assert added[k + 1].task == children[k];
    }
  }

  /** `GoogleMove` to a calendar tombstones the subtree's rows, then mints new ones. */
  lemma GoogleMoveMints(w: World, id: int, g: CaldavTask, list: string, now: int, top: bool)
    ensures GoogleMove(w, id, g, CaldavFilter(list), now, top)
         == MintUnder(w.(rows := Tombstoned(w.rows, SetOf([id] + Descendants(w.tasks, [id])), now)),
                      id, Descendants(w.tasks, [id]), list, top)
  {
    var children := Descendants(w.tasks, [id]);
    assert SetOf(children + [id]) == SetOf([id] + children);
  }

  /**
   * Tombstoning the rows of a root and its children, then appending a
   * minted row for the root and rows under it for the children, leaves the
   * old rows in place and binds each of them to its new row alone.
   */
  lemma MintedAfterTombstone(rows: seq<CaldavTask>, id: int, children: seq<int>, list: string, n: nat, now: int)
    requires now != 0 && Distinct(children) && id !in children
    ensures var after := Tombstoned(rows, SetOf([id] + children), now) + [MintedRow(id, list, n, None)]
                         + RowsUnder(children, list, n + 1, Some(Generated(n)));
            Tombstones(rows, after, SetOf([id] + children), now) &&
            LiveRows(after, id) == [MintedRow(id, list, n, None)] &&
            (forall k :: 0 <= k < |children| ==>
               LiveRows(after, children[k]) == [MintedRow(children[k], list, n + 1 + k, Some(Generated(n)))]) &&
            (forall x :: x !in [id] + children ==> LiveRows(after, x) == LiveRows(rows, x))
  {
    var moved := SetOf([id] + children);
    var t := Tombstoned(rows, moved, now);
    MarkDeletedKills(rows, moved, now);
    MintedRowsBind(t, id, children, list, n);
  }

  /**
   * Google-Tasks list to a CalDAV calendar: fresh remote ids for the root
   * and each descendant, every descendant directly under the root remotely.
   */
  lemma GoogleToCaldav(w: World, id: int, g: CaldavTask, list: string, now: int, top: bool, w': World)
    requires now != 0
    requires id !in Descendants(w.tasks, [id])
    requires w' == GoogleMove(w, id, g, CaldavFilter(list), now, top)
    ensures Tombstones(w.rows, w'.rows, SetOf([id] + Descendants(w.tasks, [id])), now)
    ensures LiveRows(w'.rows, id) == [CaldavTask(id, list, CalDav, Some(Generated(w.nextUuid)), None, None, 0)]
    ensures forall k :: 0 <= k < |Descendants(w.tasks, [id])| ==>
              LiveRows(w'.rows, Descendants(w.tasks, [id])[k]) ==
              [CaldavTask(Descendants(w.tasks, [id])[k], list, CalDav, Some(Generated(w.nextUuid + 1 + k)), None,
                          Some(Generated(w.nextUuid)), 0)]
    ensures forall x :: x !in [id] + Descendants(w.tasks, [id]) ==> LiveRows(w'.rows, x) == LiveRows(w.rows, x)
    ensures w'.tasks == w.tasks && w'.placements == w.placements + [Placement(id, list, top)]
    ensures w'.nextUuid == w.nextUuid + 1 + |Descendants(w.tasks, [id])| && w'.cacheMoves == w.cacheMoves
  {
    GoogleMoveMints(w, id, g, list, now, top);
    MintedAfterTombstone(w.rows, id, Descendants(w.tasks, [id]), list, w.nextUuid, now);
  }

  // ---------------------------------------------------------------------
  // moveToGoogleTasks

  /** The tasks `children` now hang directly under `id`; no other task changes. */
  ghost predicate Flattened(before: seq<Task>, after: seq<Task>, id: int, children: seq<int>) {
    forall x ::
      (x in children && FetchTask(before, x).Some? ==> FetchTask(after, x) == Some(FetchTask(before, x).value.(parent := id))) &&
      (x !in children ==> FetchTask(after, x) == FetchTask(before, x))
  }

  lemma {:induction false} FetchWithParent(tasks: seq<Task>, parent: int, ids: set<int>, x: int)
    ensures FetchTask(WithParent(tasks, parent, ids), x) ==
            if x in ids && FetchTask(tasks, x).Some? then Some(FetchTask(tasks, x).value.(parent := parent))
            else FetchTask(tasks, x)
  {
    if tasks != [] {
      assert WithParent(tasks, parent, ids)[1..] == WithParent(tasks[1..], parent, ids);
      FetchWithParent(tasks[1..], parent, ids, x);
    }
  }

  /** `moveToGoogleTasks` does nothing when the root cannot be fetched, and otherwise flattens the subtree under it. */
  lemma ToGoogleTasksFlattens(w: World, id: int, children: seq<int>, list: string, top: bool)
    ensures FetchTask(w.tasks, id).None? ==> ToGoogleTasks(w, id, children, list, top) == w
    ensures FetchTask(w.tasks, id).Some? ==> Flattened(w.tasks, ToGoogleTasks(w, id, children, list, top).tasks, id, children)
  {
    if FetchTask(w.tasks, id).Some? {
      var after := ToGoogleTasks(w, id, children, list, top).tasks;
      forall x
        ensures (x in children && FetchTask(w.tasks, x).Some? ==>
                  FetchTask(after, x) == Some(FetchTask(w.tasks, x).value.(parent := id))) &&
                (x !in children ==> FetchTask(after, x) == FetchTask(w.tasks, x))
      {
        FetchWithParent(w.tasks, id, SetOf(children), x);
      }
    }
  }

  // ---------------------------------------------------------------------
  // moveCaldavTask

  lemma {:induction false} CarriedLive(cs: seq<CaldavTask>, list: string, x: int)
    requires AllLive(cs)
    ensures LiveRows(CarriedRows(cs, list), x) == CarriedRows(LiveRows(cs, x), list)
  {
    if cs != [] {
      var head := CarriedRows([cs[0]], list);
      assert CarriedRows(cs, list) == head + CarriedRows(cs[1..], list);
      LiveRowsAppend(head, CarriedRows(cs[1..], list), x);
      CarriedLive(cs[1..], list, x);
      var h := if cs[0].task == x then [cs[0]] else [];
      assert LiveRows(cs, x) == h + LiveRows(cs[1..], x);
      assert CarriedRows(h + LiveRows(cs[1..], x), list) == CarriedRows(h, list) + CarriedRows(LiveRows(cs[1..], x), list);
    }
  }

  lemma {:induction false} LiveRowsOfLive(rows: seq<CaldavTask>, ids: set<int>)
    ensures AllLive(LiveRowsOf(rows, ids))
  {
    if rows != [] {
      LiveRowsOfLive(rows[1..], ids);
    }
  }

  lemma {:induction false} LiveRowsOfTask(rows: seq<CaldavTask>, ids: set<int>, x: int)
    ensures LiveRows(LiveRowsOf(rows, ids), x) == if x in ids then LiveRows(rows, x) else []
  {
    if rows != [] {
      var h := if rows[0].task in ids && rows[0].deleted == 0 then [rows[0]] else [];
      LiveRowsAppend(h, LiveRowsOf(rows[1..], ids), x);
      LiveRowsOfTask(rows[1..], ids, x);
    }
  }

  /**
   * The live rows of one task after `moveCaldavTask` tombstones the subtree
   * of `c.task` (its descendants being `ids`) and appends the carried copies
   * of the root row and of the descendants' live rows.
   */
  lemma CarriedAt(rows: seq<CaldavTask>, c: CaldavTask, ids: set<int>, children: seq<CaldavTask>, list: string, now: int, x: int)
    requires c.task !in ids && now != 0
    requires children == LiveRowsOf(rows, ids)
    ensures var after := Tombstoned(rows, {c.task} + ids, now) + ([CarriedRoot(c, list)] + CarriedRows(children, list));
            LiveRows(after, x) ==
              if x == c.task then [CarriedRoot(c, list)]
              else if x in ids then CarriedRows(LiveRows(rows, x), list)
              else LiveRows(rows, x)
  {
    var t := Tombstoned(rows, {c.task} + ids, now);
    var root := CarriedRoot(c, list);
    LiveRowsAppend(t, [root] + CarriedRows(children, list), x);
    LiveRowsAppend([root], CarriedRows(children, list), x);
    LiveRowsOfLive(rows, ids);
    CarriedLive(children, list, x);
    LiveRowsOfTask(rows, ids, x);
    if x in {c.task} + ids {
      TombstonedDead(rows, {c.task} + ids, now, x);
    } else {
      TombstonedElsewhere(rows, {c.task} + ids, now, x);
    }
  }

  /** The copy of a task's one live row in another calendar. */
  lemma CarriedSole(rows: seq<CaldavTask>, x: int, list: string)
    requires |LiveRows(rows, x)| == 1
    ensures CarriedRows(LiveRows(rows, x), list) == [LiveRows(rows, x)[0].(calendar := list, kind := CalDav)]
  {
    LiveRowsMembers(rows, x);
    assert LiveRows(rows, x)[0] in LiveRows(rows, x);
  }

  lemma {:induction false} LiveRowsOfNothing(rows: seq<CaldavTask>)
    ensures LiveRowsOf(rows, {}) == []
  {
    if rows != [] {
      LiveRowsOfNothing(rows[1..]);
    }
  }

  /** `CaldavMove` to another calendar tombstones the subtree's rows, then carries the live ones over. */
  lemma CaldavMoveCarries(w: World, id: int, c: CaldavTask, list: string, now: int, top: bool)
    requires c.calendar != list
    ensures CaldavMove(w, id, c, CaldavFilter(list), now, top)
         == Carry(w.(rows := Tombstoned(w.rows, {id} + SetOf(Descendants(w.tasks, [id])), now)),
                  c, LiveRowsOf(w.rows, SetOf(Descendants(w.tasks, [id]))), list, top)
  {
    var childIds := Descendants(w.tasks, [id]);
    assert SetOf([id] + childIds) == {id} + SetOf(childIds);
    if childIds == [] {
      assert SetOf(childIds) == {};
      LiveRowsOfNothing(w.rows);
    }
  }

  /** `CaldavMove` to another calendar, with the rows it appends written out. */
  lemma CaldavMoveRows(w: World, id: int, c: CaldavTask, list: string, now: int, top: bool, w': World)
    requires c.calendar != list
    requires w' == CaldavMove(w, id, c, CaldavFilter(list), now, top)
    ensures w'.rows == Tombstoned(w.rows, {id} + SetOf(Descendants(w.tasks, [id])), now)
                       + ([CarriedRoot(c, list)] + CarriedRows(LiveRowsOf(w.rows, SetOf(Descendants(w.tasks, [id]))), list))
    ensures w'.tasks == w.tasks && w'.placements == w.placements + [Placement(c.task, list, top)]
    ensures w'.nextUuid == w.nextUuid
  {
    CaldavMoveCarries(w, id, c, list, now, top);
    var tomb := Tombstoned(w.rows, {id} + SetOf(Descendants(w.tasks, [id])), now);
    var carried := CarriedRows(LiveRowsOf(w.rows, SetOf(Descendants(w.tasks, [id]))), list);
    assert tomb + [CarriedRoot(c, list)] + carried == tomb + ([CarriedRoot(c, list)] + carried);
  }

  /**
   * CalDAV calendar to another CalDAV calendar: the root keeps its remote id
   * and object and becomes top-level remotely; each descendant (which the
   * source expects to have one live row) keeps remote id, object and remote
   * parent.
   */
  lemma CaldavToCaldav(w: World, id: int, c: CaldavTask, list: string, now: int, top: bool, w': World)
    requires c.task == id && c.calendar != list && now != 0
    requires id !in Descendants(w.tasks, [id])
    requires forall x :: x in Descendants(w.tasks, [id]) ==> |LiveRows(w.rows, x)| == 1
    requires w' == CaldavMove(w, id, c, CaldavFilter(list), now, top)
    ensures Tombstones(w.rows, w'.rows, SetOf([id] + Descendants(w.tasks, [id])), now)
    ensures LiveRows(w'.rows, id) == [CaldavTask(id, list, CalDav, c.remoteId, c.obj, None, 0)]
    ensures forall x :: x in Descendants(w.tasks, [id]) ==>
              LiveRows(w'.rows, x) == [LiveRows(w.rows, x)[0].(calendar := list, kind := CalDav)]
    ensures forall x :: x !in [id] + Descendants(w.tasks, [id]) ==> LiveRows(w'.rows, x) == LiveRows(w.rows, x)
    ensures w'.tasks == w.tasks && w'.placements == w.placements + [Placement(id, list, top)]
    ensures w'.nextUuid == w.nextUuid
  {
    var childIds := Descendants(w.tasks, [id]);
    var ids := SetOf(childIds);
    var children := LiveRowsOf(w.rows, ids);
    CaldavMoveRows(w, id, c, list, now, top, w');
    assert SetOf([id] + childIds) == {id} + ids;
    CarriedAt(w.rows, c, ids, children, list, now, id);
    forall x | x in childIds
      ensures LiveRows(w'.rows, x) == [LiveRows(w.rows, x)[0].(calendar := list, kind := CalDav)]
    {
      CarriedAt(w.rows, c, ids, children, list, now, x);
      CarriedSole(w.rows, x, list);
    }
    forall x | x !in [id] + childIds ensures LiveRows(w'.rows, x) == LiveRows(w.rows, x) {
      CarriedAt(w.rows, c, ids, children, list, now, x);
    }
  }

  /** CalDAV calendar to a Google-Tasks list: the subtree is flattened under the root and bound to the list. */
  lemma CaldavToGoogle(w: World, id: int, c: CaldavTask, list: string, now: int, top: bool, w': World)
    requires id in Ids(w.tasks) && now != 0
    requires id !in Descendants(w.tasks, [id])
    requires w' == CaldavMove(w, id, c, GtasksFilter(list), now, top)
    ensures Tombstones(w.rows, w'.rows, SetOf([id] + Descendants(w.tasks, [id])), now)
    ensures forall x :: x in [id] + Descendants(w.tasks, [id]) ==>
              LiveRows(w'.rows, x) == [CaldavTask(x, list, GoogleTasks, None, None, None, 0)]
    ensures forall x :: x !in [id] + Descendants(w.tasks, [id]) ==> LiveRows(w'.rows, x) == LiveRows(w.rows, x)
    ensures Flattened(w.tasks, w'.tasks, id, Descendants(w.tasks, [id]))
    ensures w'.nextUuid == w.nextUuid && w'.cacheMoves == w.cacheMoves
  {
    var childIds := Descendants(w.tasks, [id]);
    var moved := SetOf([id] + childIds);
    var w1 := w.(rows := Tombstoned(w.rows, moved, now));
    assert w' == ToGoogleTasks(w1, id, childIds, list, top);
    MarkDeletedKills(w.rows, moved, now);
    GoogleRowsBind(w1.rows, id, childIds, list);
    ToGoogleTasksFlattens(w1, id, childIds, list, top);
  }

  // ---------------------------------------------------------------------
  // moveLocalTask

  /** A local subtree moved to a Google-Tasks list is flattened under its root and bound to the list. */
  lemma LocalToGoogle(w: World, id: int, list: string, top: bool, w': World)
    requires id in Ids(w.tasks)
    requires id !in Descendants(w.tasks, [id])
    requires forall x :: x in [id] + Descendants(w.tasks, [id]) ==> LiveRows(w.rows, x) == []
    requires w' == LocalMove(w, id, GtasksFilter(list), top)
    ensures |w.rows| <= |w'.rows| && w'.rows[..|w.rows|] == w.rows
    ensures forall x :: x in [id] + Descendants(w.tasks, [id]) ==>
              LiveRows(w'.rows, x) == [CaldavTask(x, list, GoogleTasks, None, None, None, 0)]
    ensures forall x :: x !in [id] + Descendants(w.tasks, [id]) ==> LiveRows(w'.rows, x) == LiveRows(w.rows, x)
    ensures Flattened(w.tasks, w'.tasks, id, Descendants(w.tasks, [id]))
    ensures w'.nextUuid == w.nextUuid
  {
    var childIds := Descendants(w.tasks, [id]);
    GoogleRowsBind(w.rows, id, childIds, list);
    ToGoogleTasksFlattens(w, id, childIds, list, top);
  }

  /** The remote parent `LinkedRow` gives a child not directly under the root is the remote id built for an earlier child, its parent. */
  lemma LinkedParent(children: seq<Task>, k: int, rootId: int, rootRemote: RemoteId, list: string, n0: nat)
    requires ParentBeforeChild(children, rootId) && 0 <= k < |children| && children[k].parent != rootId
    ensures exists j :: 0 <= j < k && children[j].id == children[k].parent &&
              LinkedRow(children, k, rootId, rootRemote, list, n0).remoteParent == Some(Generated(n0 + j))
  {
    var found := LastIndexOf(children, k, children[k].parent);
    assert found.Some?;
  }

  /** A task and its descendants, the root first. */
  function Subtree(w: World, id: int): seq<int> {
    [id] + Descendants(w.tasks, [id])
  }

  /** The rows `moveLocalTask` appends for a CalDAV destination, the root's first. */
  function LocalAdded(w: World, id: int, list: string): seq<CaldavTask> {
    [MintedRow(id, list, w.nextUuid, None)]
      + LinkedRows(FetchEach(w.tasks, Descendants(w.tasks, [id])), id, Generated(w.nextUuid), list, w.nextUuid + 1)
  }

  lemma LocalMoveRows(w: World, id: int, list: string, top: bool, w': World)
    requires w' == LocalMove(w, id, CaldavFilter(list), top)
    ensures w'.rows == w.rows + LocalAdded(w, id, list)
    ensures w'.tasks == w.tasks && w'.placements == w.placements + [Placement(id, list, top)]
    ensures w'.nextUuid == w.nextUuid + 1 + |FetchEach(w.tasks, Descendants(w.tasks, [id]))|
  {
  }

  /** The `k`-th row appended binds the `k`-th task of the subtree, with the `k`-th fresh remote id. */
  lemma LocalAddedAt(w: World, id: int, list: string)
    ensures |LocalAdded(w, id, list)| == |Subtree(w, id)|
    ensures forall k :: 0 <= k < |Subtree(w, id)| ==>
              LocalAdded(w, id, list)[k].task == Subtree(w, id)[k] &&
              LocalAdded(w, id, list)[k].calendar == list && LocalAdded(w, id, list)[k].kind == CalDav &&
              LocalAdded(w, id, list)[k].deleted == 0 &&
              LocalAdded(w, id, list)[k].remoteId == Some(Generated(w.nextUuid + k))
  {
    var d := Descendants(w.tasks, [id]);
    var ts := FetchEach(w.tasks, d);
    FetchDescendantsLength(w.tasks, [id]);
    forall k | 0 <= k < |d| ensures ts[k].id == d[k] {
      FetchDescendantAt(w.tasks, [id], k);
    }
  }

  /**
   * Where no task of the subtree had a live row, each of them ends with the
   * one row appended for it; every other task keeps its rows.
   */
  lemma LocalBinds(w: World, id: int, list: string)
    requires id !in Descendants(w.tasks, [id])
    requires forall x :: x in Subtree(w, id) ==> LiveRows(w.rows, x) == []
    ensures forall k :: 0 <= k < |Subtree(w, id)| ==>
              k < |LocalAdded(w, id, list)| && LiveRows(w.rows + LocalAdded(w, id, list), Subtree(w, id)[k]) == [LocalAdded(w, id, list)[k]]
    ensures forall x :: x !in Subtree(w, id) ==> LiveRows(w.rows + LocalAdded(w, id, list), x) == LiveRows(w.rows, x)
  {
    var all := Subtree(w, id);
    var added := LocalAdded(w, id, list);
    LocalAddedAt(w, id, list);
    assert TasksOf(added) == all;
    assert AllLive(added);
    DistinctCons(id, Descendants(w.tasks, [id]));
    Rebound(w.rows, added, SetOf(all));
  }

  /**
   * A local subtree moved to a CalDAV calendar: every task of it gets one
   * live row in the calendar, with a remote id, the root's with no remote
   * parent; the old rows are kept and no other task changes.
   */
  lemma LocalToCaldav(w: World, id: int, list: string, top: bool, w': World)
    requires id !in Descendants(w.tasks, [id])
    requires forall x :: x in Subtree(w, id) ==> LiveRows(w.rows, x) == []
    requires w' == LocalMove(w, id, CaldavFilter(list), top)
    ensures |w.rows| <= |w'.rows| && w'.rows[..|w.rows|] == w.rows
    ensures forall x :: x !in Subtree(w, id) ==> LiveRows(w'.rows, x) == LiveRows(w.rows, x)
    ensures forall x :: x in Subtree(w, id) ==>
              |LiveRows(w'.rows, x)| == 1 && LiveRows(w'.rows, x)[0].calendar == list &&
              LiveRows(w'.rows, x)[0].kind == CalDav && LiveRows(w'.rows, x)[0].remoteId.Some?
    ensures LiveRows(w'.rows, id) == [CaldavTask(id, list, CalDav, Some(Generated(w.nextUuid)), None, None, 0)]
    ensures w'.tasks == w.tasks && w'.placements == w.placements + [Placement(id, list, top)]
  {
    LocalMoveRows(w, id, list, top, w');
    LocalAddedAt(w, id, list);
    LocalBinds(w, id, list);
    assert w'.rows[..|w.rows|] == w.rows;
    forall x | x in Subtree(w, id)
      ensures |LiveRows(w'.rows, x)| == 1 && LiveRows(w'.rows, x)[0].calendar == list &&
              LiveRows(w'.rows, x)[0].kind == CalDav && LiveRows(w'.rows, x)[0].remoteId.Some?
    {
      var k :| 0 <= k < |Subtree(w, id)| && Subtree(w, id)[k] == x;
    }
    assert Subtree(w, id)[0] == id;
  }

  /** The one live row the `k`-th task of a moved local subtree ends with, and its remote id. */
  lemma LocalRowAt(w: World, id: int, list: string, top: bool, w': World, k: int)
    requires id !in Descendants(w.tasks, [id])
    requires forall x :: x in Subtree(w, id) ==> LiveRows(w.rows, x) == []
    requires w' == LocalMove(w, id, CaldavFilter(list), top)
    requires 0 <= k < |Subtree(w, id)|
    ensures |LiveRows(w'.rows, Subtree(w, id)[k])| == 1
    ensures LiveRows(w'.rows, Subtree(w, id)[k])[0].remoteId == Some(Generated(w.nextUuid + k))
  {
    LocalMoveRows(w, id, list, top, w');
    LocalAddedAt(w, id, list);
    LocalBinds(w, id, list);
  }

  /** Tasks whose sole live rows carry the remote ids `Generated(n + k)`, by position, carry pairwise distinct remote ids. */
  lemma IndexedRemoteIdsDistinct(sub: seq<int>, rows: seq<CaldavTask>, n: nat)
    requires forall k :: 0 <= k < |sub| ==>
               |LiveRows(rows, sub[k])| == 1 && LiveRows(rows, sub[k])[0].remoteId == Some(Generated(n + k))
    ensures forall x, y :: x in sub && y in sub && x != y ==>
              LiveRows(rows, x) != [] && LiveRows(rows, y) != [] &&
              LiveRows(rows, x)[0].remoteId != LiveRows(rows, y)[0].remoteId
  {
    forall x, y | x in sub && y in sub && x != y
      ensures LiveRows(rows, x) != [] && LiveRows(rows, y) != [] &&
              LiveRows(rows, x)[0].remoteId != LiveRows(rows, y)[0].remoteId
    {
      var a :| 0 <= a < |sub| && sub[a] == x;
      var b :| 0 <= b < |sub| && sub[b] == y;
    }
  }

  /** The new remote ids of a moved local subtree are pairwise distinct. */
  lemma LocalRemoteIdsDistinct(w: World, id: int, list: string, top: bool, w': World)
    requires id !in Descendants(w.tasks, [id])
    requires forall x :: x in Subtree(w, id) ==> LiveRows(w.rows, x) == []
    requires w' == LocalMove(w, id, CaldavFilter(list), top)
    ensures forall x, y :: x in Subtree(w, id) && y in Subtree(w, id) && x != y ==>
              LiveRows(w'.rows, x) != [] && LiveRows(w'.rows, y) != [] &&
              LiveRows(w'.rows, x)[0].remoteId != LiveRows(w'.rows, y)[0].remoteId
  {
    forall k | 0 <= k < |Subtree(w, id)|
      ensures |LiveRows(w'.rows, Subtree(w, id)[k])| == 1
      ensures LiveRows(w'.rows, Subtree(w, id)[k])[0].remoteId == Some(Generated(w.nextUuid + k))
    {
      LocalRowAt(w, id, list, top, w', k);
    }
    IndexedRemoteIdsDistinct(Subtree(w, id), w'.rows, w.nextUuid);
  }

  /**
   * Among the rows built for a root and its children listed parents first,
   * the `k`-th child's remote parent is the remote id of the row built for
   * its parent.
   */
  lemma LinkedRowLink(ts: seq<Task>, k: int, id: int, list: string, n: nat) returns (j: nat)
    requires ParentBeforeChild(ts, id) && 0 <= k < |ts|
    ensures j <= k && ([id] + IdsOf(ts))[j] == ts[k].parent
    ensures LinkedRow(ts, k, id, Generated(n), list, n + 1).remoteParent == Some(Generated(n + j))
  {
    if ts[k].parent == id {
      j := 0;
    } else {
      LinkedParent(ts, k, id, Generated(n), list, n + 1);
      var i :| 0 <= i < k && ts[i].id == ts[k].parent &&
               LinkedRow(ts, k, id, Generated(n), list, n + 1).remoteParent == Some(Generated(n + 1 + i));
      j := i + 1;
    }
  }

  lemma LocalAddedChild(w: World, id: int, list: string, k: int)
    requires 0 <= k < |Descendants(w.tasks, [id])|
    ensures k < |FetchEach(w.tasks, Descendants(w.tasks, [id]))| && k + 1 < |LocalAdded(w, id, list)|
    ensures LocalAdded(w, id, list)[k + 1] ==
            LinkedRow(FetchEach(w.tasks, Descendants(w.tasks, [id])), k, id, Generated(w.nextUuid), list, w.nextUuid + 1)
  {
    FetchDescendantsLength(w.tasks, [id]);
  }

  lemma LocalAddedRemoteId(w: World, id: int, list: string, j: int)
    requires 0 <= j < |Subtree(w, id)|
    ensures j < |LocalAdded(w, id, list)| && LocalAdded(w, id, list)[j].remoteId == Some(Generated(w.nextUuid + j))
  {
    FetchDescendantsLength(w.tasks, [id]);
  }

  lemma SubtreeIds(w: World, id: int, j: int)
    requires 0 <= j < |Subtree(w, id)|
    ensures j <= |FetchEach(w.tasks, Descendants(w.tasks, [id]))|
    ensures Subtree(w, id)[j] == ([id] + IdsOf(FetchEach(w.tasks, Descendants(w.tasks, [id]))))[j]
  {
    FetchDescendantsLength(w.tasks, [id]);
    if j > 0 {
      FetchDescendantAt(w.tasks, [id], j - 1);
    }
  }

  /** The parent of the `k`-th descendant sits at position `j <= k` of the subtree, and its row's remote id is the one `LinkedRow` links to. */
  lemma LocalParentAt(w: World, id: int, list: string, k: int) returns (j: nat)
    requires WellFormed(w.tasks)
    requires 0 <= k < |Descendants(w.tasks, [id])|
    ensures k < |FetchEach(w.tasks, Descendants(w.tasks, [id]))|
    ensures j <= k && Subtree(w, id)[j] == FetchEach(w.tasks, Descendants(w.tasks, [id]))[k].parent
    ensures LinkedRow(FetchEach(w.tasks, Descendants(w.tasks, [id])), k, id, Generated(w.nextUuid), list, w.nextUuid + 1).remoteParent
            == Some(Generated(w.nextUuid + j))
  {
    var ts := FetchEach(w.tasks, Descendants(w.tasks, [id]));
    FetchDescendantsLength(w.tasks, [id]);
    ChildrenFollowParents(w.tasks, id);
    j := LinkedRowLink(ts, k, id, list, w.nextUuid);
    SubtreeIds(w, id, j);
  }

  /** The `k`-th descendant's new remote parent is the remote id of the row appended for its parent. */
  lemma LocalLinkAt(w: World, id: int, list: string, k: int) returns (j: nat)
    requires WellFormed(w.tasks)
    requires 0 <= k < |Descendants(w.tasks, [id])|
    ensures FetchTask(w.tasks, Descendants(w.tasks, [id])[k]).Some?
    ensures j <= k && Subtree(w, id)[j] == FetchTask(w.tasks, Descendants(w.tasks, [id])[k]).value.parent
    ensures k + 1 < |LocalAdded(w, id, list)| &&
            LocalAdded(w, id, list)[k + 1].remoteParent == LocalAdded(w, id, list)[j].remoteId
  {
    j := LocalParentAt(w, id, list, k);
    FetchDescendantAt(w.tasks, [id], k);
    LocalAddedChild(w, id, list, k);
    LocalAddedRemoteId(w, id, list, j);
  }

  /**
   * A local subtree moved to a CalDAV calendar keeps its shape remotely:
   * each descendant's remote parent is the remote id of its own parent's new
   * row (the root's, when the parent is the root).
   */
  lemma LocalToCaldavLinks(w: World, id: int, list: string, top: bool, w': World)
    requires WellFormed(w.tasks)
    requires id !in Descendants(w.tasks, [id])
    requires forall x :: x in Subtree(w, id) ==> LiveRows(w.rows, x) == []
    requires w' == LocalMove(w, id, CaldavFilter(list), top)
    ensures forall x :: x in Descendants(w.tasks, [id]) ==>
              FetchTask(w.tasks, x).Some? && FetchTask(w.tasks, x).value.parent in Subtree(w, id) &&
              LiveRows(w'.rows, x) != [] && LiveRows(w'.rows, FetchTask(w.tasks, x).value.parent) != [] &&
              LiveRows(w'.rows, x)[0].remoteParent == LiveRows(w'.rows, FetchTask(w.tasks, x).value.parent)[0].remoteId
  {
    var d := Descendants(w.tasks, [id]);
    LocalMoveRows(w, id, list, top, w');
    LocalAddedAt(w, id, list);
    LocalBinds(w, id, list);
    forall x | x in d
      ensures FetchTask(w.tasks, x).Some? && FetchTask(w.tasks, x).value.parent in Subtree(w, id) &&
              LiveRows(w'.rows, x) != [] && LiveRows(w'.rows, FetchTask(w.tasks, x).value.parent) != [] &&
              LiveRows(w'.rows, x)[0].remoteParent == LiveRows(w'.rows, FetchTask(w.tasks, x).value.parent)[0].remoteId
    {
      var k :| 0 <= k < |d| && d[k] == x;
      assert Subtree(w, id)[k + 1] == x;
      var j := LocalLinkAt(w, id, list, k);
    }
  }

  // ---------------------------------------------------------------------
  // performMove

  /** A task already in the destination list is left exactly as it was. */
  lemma SameListIsNoOp(w: World, id: int, dest: Filter, now: int, top: bool)
    requires AlreadyIn(w.rows, id, dest)
    ensures Perform(w, id, dest, now, top) == w
  {
  }

  // ---------------------------------------------------------------------
  // move(ids, selectedList)

  lemma IdsWithParent(tasks: seq<Task>, parent: int, ids: set<int>)
    ensures Ids(WithParent(tasks, parent, ids)) == Ids(tasks)
  {
    forall x
      ensures x in Ids(WithParent(tasks, parent, ids)) <==> x in Ids(tasks)
    {
      FetchWithParent(tasks, parent, ids, x);
    }
  }

  lemma {:induction false} FetchTouched(tasks: seq<Task>, ids: set<int>, now: int, x: int)
    ensures FetchTask(Touched(tasks, ids, now), x) ==
            if x in ids && FetchTask(tasks, x).Some? then Some(FetchTask(tasks, x).value.(modified := now))
            else FetchTask(tasks, x)
  {
    if tasks != [] {
      assert Touched(tasks, ids, now)[1..] == Touched(tasks[1..], ids, now);
      FetchTouched(tasks[1..], ids, now, x);
    }
  }

  /** `performMove` never adds or removes a task, and never schedules a parent roll-up. */
  lemma PerformFrame(w: World, id: int, dest: Filter, now: int, top: bool)
    ensures Ids(Perform(w, id, dest, now, top).tasks) == Ids(w.tasks)
    ensures Perform(w, id, dest, now, top).rollups == w.rollups
  {
    match BindingOf(w.rows, id)
    case GoogleBound(g) =>
      assert Perform(w, id, dest, now, top).tasks == w.tasks;
    case CaldavBound(c) =>
      if dest.GtasksFilter? {
        var childIds := Descendants(w.tasks, [id]);
        ToGoogleFrame(w.(rows := Tombstoned(w.rows, SetOf([id] + childIds), now)), id, childIds, dest, top);
      }
    case Unbound =>
      if dest.GtasksFilter? {
        ToGoogleFrame(w, id, Descendants(w.tasks, [id]), dest, top);
      }
  }

  lemma ToGoogleFrame(w: World, id: int, children: seq<int>, dest: Filter, top: bool)
    requires dest.GtasksFilter?
    ensures Ids(ToGoogleTasks(w, id, children, dest.listId, top).tasks) == Ids(w.tasks)
    ensures ToGoogleTasks(w, id, children, dest.listId, top).rollups == w.rollups
  {
    IdsWithParent(w.tasks, id, SetOf(children));
  }

  lemma {:induction false} PerformAllFrame(w: World, roots: seq<Task>, dest: Filter, now: int, top: bool)
    ensures Ids(PerformAll(w, roots, dest, now, top).tasks) == Ids(w.tasks)
    ensures PerformAll(w, roots, dest, now, top).rollups == w.rollups
    decreases |roots|
  {
    if roots != [] {
      PerformAllFrame(w, roots[..|roots| - 1], dest, now, top);
      PerformFrame(PerformAll(w, roots[..|roots| - 1], dest, now, top), roots[|roots| - 1].id, dest, now, top);
    }
  }

  /** The ids of the processed tasks: requested, no descendant of a requested task, present and not read-only. */
  lemma RootIds(tasks: seq<Task>, ids: seq<int>, x: int)
    requires WellFormed(tasks)
    ensures x in SetOf(IdsOf(Roots(tasks, ids))) <==>
              x in ids && x !in Descendants(tasks, ids) && FetchTask(tasks, x).Some? && !FetchTask(tasks, x).value.readOnly
  {
    var roots := Roots(tasks, ids);
    if x in SetOf(IdsOf(roots)) {
      var i :| 0 <= i < |roots| && IdsOf(roots)[i] == x;
      assert roots[i] in roots;
      UniqueId(tasks, roots[i], FetchTask(tasks, x).value);
    }
    if x in ids && x !in Descendants(tasks, ids) && FetchTask(tasks, x).Some? && !FetchTask(tasks, x).value.readOnly {
      var t := FetchTask(tasks, x).value;
      assert t in roots;
      var i :| 0 <= i < |roots| && roots[i] == t;
      assert IdsOf(roots)[i] == x;
    }
  }

  /**
   * The parent pointer cleared before the moves is exactly that of each
   * requested task that is no descendant of a requested task and is not
   * read-only; every other task is left as it was.
   */
  lemma DetachedAreRoots(w: World, ids: seq<int>, x: int)
    requires WellFormed(w.tasks)
    ensures FetchTask(Detached(w, ids).tasks, x) ==
            if x in ids && x !in Descendants(w.tasks, ids) && FetchTask(w.tasks, x).Some? && !FetchTask(w.tasks, x).value.readOnly
            then Some(FetchTask(w.tasks, x).value.(parent := 0))
            else FetchTask(w.tasks, x)
  {
    FetchWithParent(w.tasks, 0, SetOf(ids) * SetOf(IdsOf(Roots(w.tasks, ids))), x);
    RootIds(w.tasks, ids, x);
  }

  /** Two rows of a well-formed task table with the same id are the same task. */
  lemma UniqueId(tasks: seq<Task>, a: Task, b: Task)
    requires WellFormed(tasks) && a in tasks && b in tasks && a.id == b.id
    ensures a == b
  {
    var i :| 0 <= i < |tasks| && tasks[i] == a;
    var j :| 0 <= j < |tasks| && tasks[j] == b;
    if i < j {
      assert false;
    } else if j < i {
      assert false;
    }
  }

  /** A batch move asks for a parent roll-up in the destination exactly when it is a CalDAV calendar. */
  lemma BatchRollup(w: World, ids: seq<int>, dest: Filter, now: int, top: bool)
    ensures BatchMove(w, ids, dest, now, top).rollups ==
            w.rollups + (if dest.CaldavFilter? then [dest.uuid] else [])
  {
    PerformAllFrame(Detached(w, ids), Roots(w.tasks, ids), dest, now, top);
  }

  /** The per-task moves keep every task, and every modification time. */
  lemma {:induction false} PerformAllKeepsModified(w: World, roots: seq<Task>, dest: Filter, now: int, top: bool, x: int)
    ensures FetchTask(PerformAll(w, roots, dest, now, top).tasks, x).Some? == FetchTask(w.tasks, x).Some?
    ensures FetchTask(w.tasks, x).Some? ==>
              FetchTask(PerformAll(w, roots, dest, now, top).tasks, x).value.modified == FetchTask(w.tasks, x).value.modified
    decreases |roots|
  {
    if roots != [] {
      var before := PerformAll(w, roots[..|roots| - 1], dest, now, top);
      PerformAllKeepsModified(w, roots[..|roots| - 1], dest, now, top, x);
      PerformReshapes(before, roots[|roots| - 1].id, dest, now, top);
    }
  }

  /**
   * Every task a batch move processes ends up touched, with modification
   * time `now`; every other task, the descendants carried along included,
   * keeps its modification time.
   */
  lemma BatchTouches(w: World, ids: seq<int>, dest: Filter, now: int, top: bool)
    ensures forall x :: x in IdsOf(Roots(w.tasks, ids)) ==>
              FetchTask(BatchMove(w, ids, dest, now, top).tasks, x).Some? &&
              FetchTask(BatchMove(w, ids, dest, now, top).tasks, x).value.modified == now
    ensures forall x :: x !in IdsOf(Roots(w.tasks, ids)) ==>
              FetchTask(BatchMove(w, ids, dest, now, top).tasks, x).Some? == FetchTask(w.tasks, x).Some? &&
              (FetchTask(w.tasks, x).Some? ==>
                 FetchTask(BatchMove(w, ids, dest, now, top).tasks, x).value.modified == FetchTask(w.tasks, x).value.modified)
  {
    var roots := Roots(w.tasks, ids);
    var w1 := Detached(w, ids);
    var w2 := PerformAll(w1, roots, dest, now, top);
    PerformAllFrame(w1, roots, dest, now, top);
    IdsWithParent(w.tasks, 0, SetOf(ids) * SetOf(IdsOf(roots)));
    var w3 := if dest.CaldavFilter? then w2.(rollups := w2.rollups + [dest.uuid]) else w2;
    assert BatchMove(w, ids, dest, now, top).tasks == Touched(w3.tasks, SetOf(IdsOf(roots)), now);
    forall x | x in IdsOf(roots)
      ensures FetchTask(Touched(w3.tasks, SetOf(IdsOf(roots)), now), x).Some? &&
              FetchTask(Touched(w3.tasks, SetOf(IdsOf(roots)), now), x).value.modified == now
    {
      var i :| 0 <= i < |roots| && IdsOf(roots)[i] == x;
      assert roots[i] in roots;
      assert x in Ids(w.tasks);
      FetchTouched(w3.tasks, SetOf(IdsOf(roots)), now, x);
    }
    forall x | x !in IdsOf(roots)
      ensures FetchTask(Touched(w3.tasks, SetOf(IdsOf(roots)), now), x).Some? == FetchTask(w.tasks, x).Some? &&
              (FetchTask(w.tasks, x).Some? ==>
                 FetchTask(Touched(w3.tasks, SetOf(IdsOf(roots)), now), x).value.modified == FetchTask(w.tasks, x).value.modified)
    {
      FetchTouched(w3.tasks, SetOf(IdsOf(roots)), now, x);
      PerformAllKeepsModified(w1, roots, dest, now, top, x);
      FetchWithParent(w.tasks, 0, SetOf(ids) * SetOf(IdsOf(roots)), x);
    }
  }

  lemma {:induction false} PerformAllCounter(w: World, roots: seq<Task>, dest: Filter, now: int, top: bool)
    requires CounterAhead(w)
    ensures CounterAhead(PerformAll(w, roots, dest, now, top))
    decreases |roots|
  {
    if roots != [] {
      PerformAllCounter(w, roots[..|roots| - 1], dest, now, top);
      PerformCounter(PerformAll(w, roots[..|roots| - 1], dest, now, top), roots[|roots| - 1].id, dest, now, top);
    }
  }

  /**
   * A batch move keeps the uuid generator ahead of the table: no row names,
   * as remote id or remote parent, an id it has yet to hand out, so every
   * remote id a later move mints is new.
   */
  lemma BatchCounter(w: World, ids: seq<int>, dest: Filter, now: int, top: bool)
    requires CounterAhead(w)
    ensures CounterAhead(BatchMove(w, ids, dest, now, top))
  {
    PerformAllCounter(Detached(w, ids), Roots(w.tasks, ids), dest, now, top);
  }

  lemma {:induction false} PerformAllAlreadyThere(w: World, roots: seq<Task>, dest: Filter, now: int, top: bool)
    requires forall t :: t in roots ==> AlreadyIn(w.rows, t.id, dest)
    ensures PerformAll(w, roots, dest, now, top) == w
    decreases |roots|
  {
    if roots != [] {
      var last := roots[|roots| - 1];
      assert last in roots;
      PerformAllAlreadyThere(w, roots[..|roots| - 1], dest, now, top);
      SameListIsNoOp(w, last.id, dest, now, top);
    }
  }

  /**
   * When every processed task already sits in the destination, a batch move
   * writes no association: rows, placements, remote ids and cache moves are
   * as they were.
   */
  lemma BatchAlreadyThere(w: World, ids: seq<int>, dest: Filter, now: int, top: bool)
    requires forall t :: t in Roots(w.tasks, ids) ==> AlreadyIn(w.rows, t.id, dest)
    ensures BatchMove(w, ids, dest, now, top).rows == w.rows
    ensures BatchMove(w, ids, dest, now, top).placements == w.placements
    ensures BatchMove(w, ids, dest, now, top).nextUuid == w.nextUuid
    ensures BatchMove(w, ids, dest, now, top).cacheMoves == w.cacheMoves
  {
    PerformAllAlreadyThere(Detached(w, ids), Roots(w.tasks, ids), dest, now, top);
  }

  // ---------------------------------------------------------------------
  // move(ids, selectedList), root by root

  /** The list a valid destination names, and the kind of its account. */
  function DestList(dest: Filter): string
    requires !dest.OtherFilter?
  {
    if dest.GtasksFilter? then dest.listId else dest.uuid
  }

  function DestKind(dest: Filter): Kind {
    if dest.GtasksFilter? then GoogleTasks else CalDav
  }

  /** `x` has exactly one live association, and it is in the destination list. */
  predicate BoundTo(rows: seq<CaldavTask>, x: int, dest: Filter)
    requires !dest.OtherFilter?
  {
    |LiveRows(rows, x)| == 1 && LiveRows(rows, x)[0].calendar == DestList(dest) && LiveRows(rows, x)[0].kind == DestKind(dest)
  }

  /**
   * What the strategy chosen for `id` expects of its subtree: a CalDAV
   * subtree moving to another calendar has one live row per descendant,
   * and a local subtree has none. A task already in the destination is
   * left alone, so nothing is asked of it.
   */
  ghost predicate Movable(w: World, id: int, dest: Filter) {
    (BindingOf(w.rows, id).CaldavBound? && dest.CaldavFilter? && !AlreadyIn(w.rows, id, dest) ==>
       forall x :: x in Descendants(w.tasks, [id]) ==> |LiveRows(w.rows, x)| == 1) &&
    (BindingOf(w.rows, id).Unbound? ==>
       forall x :: x in Descendants(w.tasks, [id]) ==> LiveRows(w.rows, x) == [])
  }

  lemma GoogleBoundPlaces(w: World, id: int, g: CaldavTask, dest: Filter, now: int, top: bool)
    requires now != 0 && !dest.OtherFilter? && id !in Descendants(w.tasks, [id])
    requires !(dest.GtasksFilter? && g.calendar == dest.listId)
    ensures forall x :: x in Subtree(w, id) ==> BoundTo(GoogleMove(w, id, g, dest, now, top).rows, x, dest)
    ensures forall x :: x !in Subtree(w, id) ==> LiveRows(GoogleMove(w, id, g, dest, now, top).rows, x) == LiveRows(w.rows, x)
  {
    var w' := GoogleMove(w, id, g, dest, now, top);
    var d := Descendants(w.tasks, [id]);
    if dest.GtasksFilter? {
      GoogleToGoogle(w, id, g, dest.listId, now, top, w');
    } else {
      GoogleToCaldav(w, id, g, dest.uuid, now, top, w');
      forall x | x in d ensures BoundTo(w'.rows, x, dest) {
        var k :| 0 <= k < |d| && d[k] == x;
      }
    }
  }

  lemma CaldavBoundPlaces(w: World, id: int, c: CaldavTask, dest: Filter, now: int, top: bool)
    requires now != 0 && !dest.OtherFilter? && c.task == id
    requires id in Ids(w.tasks) && id !in Descendants(w.tasks, [id])
    requires !(dest.CaldavFilter? && c.calendar == dest.uuid)
    requires dest.CaldavFilter? ==> forall x :: x in Descendants(w.tasks, [id]) ==> |LiveRows(w.rows, x)| == 1
    ensures forall x :: x in Subtree(w, id) ==> BoundTo(CaldavMove(w, id, c, dest, now, top).rows, x, dest)
    ensures forall x :: x !in Subtree(w, id) ==> LiveRows(CaldavMove(w, id, c, dest, now, top).rows, x) == LiveRows(w.rows, x)
  {
    var w' := CaldavMove(w, id, c, dest, now, top);
    if dest.CaldavFilter? {
      CaldavToCaldav(w, id, c, dest.uuid, now, top, w');
    } else {
      CaldavToGoogle(w, id, c, dest.listId, now, top, w');
    }
  }

  lemma UnboundPlaces(w: World, id: int, dest: Filter, top: bool)
    requires !dest.OtherFilter? && id in Ids(w.tasks) && id !in Descendants(w.tasks, [id])
    requires forall x :: x in Subtree(w, id) ==> LiveRows(w.rows, x) == []
    ensures forall x :: x in Subtree(w, id) ==> BoundTo(LocalMove(w, id, dest, top).rows, x, dest)
    ensures forall x :: x !in Subtree(w, id) ==> LiveRows(LocalMove(w, id, dest, top).rows, x) == LiveRows(w.rows, x)
  {
    var w' := LocalMove(w, id, dest, top);
    if dest.GtasksFilter? {
      LocalToGoogle(w, id, dest.listId, top, w');
    } else {
      LocalToCaldav(w, id, dest.uuid, top, w');
    }
  }

  lemma {:induction false} NoLiveRows(rows: seq<CaldavTask>, id: int)
    requires forall c :: c in rows && c.task == id ==> c.deleted != 0
    ensures LiveRows(rows, id) == []
  {
    if rows != [] {
      assert rows[0] in rows;
      NoLiveRows(rows[1..], id);
    }
  }

  /**
   * One `performMove` to a valid destination: a task already there is left
   * alone; otherwise the task and each of its descendants end with exactly
   * one live row, in the destination, and no other task's rows change.
   */
  lemma PerformPlaces(w: World, id: int, dest: Filter, now: int, top: bool)
    requires now != 0 && !dest.OtherFilter?
    requires id in Ids(w.tasks) && id !in Descendants(w.tasks, [id]) && Movable(w, id, dest)
    ensures AlreadyIn(w.rows, id, dest) ==> Perform(w, id, dest, now, top) == w
    ensures !AlreadyIn(w.rows, id, dest) ==>
              forall x :: x in Subtree(w, id) ==> BoundTo(Perform(w, id, dest, now, top).rows, x, dest)
    ensures forall x :: x !in Subtree(w, id) ==> LiveRows(Perform(w, id, dest, now, top).rows, x) == LiveRows(w.rows, x)
  {
    if AlreadyIn(w.rows, id, dest) {
      SameListIsNoOp(w, id, dest, now, top);
    } else {
      match BindingOf(w.rows, id)
      case GoogleBound(g) => GoogleBoundPlaces(w, id, g, dest, now, top);
      case CaldavBound(c) => CaldavBoundPlaces(w, id, c, dest, now, top);
      case Unbound =>
        NoLiveRows(w.rows, id);
        UnboundPlaces(w, id, dest, top);
    }
  }

  /**
   * `performMove` changes no task outside the subtree, and inside it at most
   * re-parents a descendant directly under the moved task.
   */
  lemma PerformReshapes(w: World, id: int, dest: Filter, now: int, top: bool)
    ensures WellFormed(w.tasks) ==> WellFormed(Perform(w, id, dest, now, top).tasks)
    ensures forall y :: FetchTask(Perform(w, id, dest, now, top).tasks, y) == FetchTask(w.tasks, y) ||
              (y in Descendants(w.tasks, [id]) && FetchTask(w.tasks, y).Some? &&
               FetchTask(Perform(w, id, dest, now, top).tasks, y) == Some(FetchTask(w.tasks, y).value.(parent := id)))
  {
    var d := Descendants(w.tasks, [id]);
    match BindingOf(w.rows, id)
    case GoogleBound(g) =>
      assert Perform(w, id, dest, now, top).tasks == w.tasks;
    case CaldavBound(c) =>
      if dest.GtasksFilter? {
        var w1 := w.(rows := Tombstoned(w.rows, SetOf([id] + d), now));
        assert Perform(w, id, dest, now, top) == ToGoogleTasks(w1, id, d, dest.listId, top);
        WithParentReshaped(w.tasks, id, d);
      } else {
        assert Perform(w, id, dest, now, top).tasks == w.tasks;
      }
    case Unbound =>
      if dest.GtasksFilter? {
        WithParentReshaped(w.tasks, id, d);
      } else {
        assert Perform(w, id, dest, now, top).tasks == w.tasks;
      }
  }

  lemma WithParentWellFormed(tasks: seq<Task>, parent: int, ids: set<int>)
    requires WellFormed(tasks)
    ensures WellFormed(WithParent(tasks, parent, ids))
  {
    forall i | 0 <= i < |tasks| ensures WithParent(tasks, parent, ids)[i].id == tasks[i].id { }
  }

  /** `setParent(id, d)` re-parents exactly the tasks of `d` and keeps the table well formed. */
  lemma WithParentReshaped(tasks: seq<Task>, id: int, d: seq<int>)
    ensures WellFormed(tasks) ==> WellFormed(WithParent(tasks, id, SetOf(d)))
    ensures forall y :: FetchTask(WithParent(tasks, id, SetOf(d)), y) == FetchTask(tasks, y) ||
              (y in d && FetchTask(tasks, y).Some? &&
               FetchTask(WithParent(tasks, id, SetOf(d)), y) == Some(FetchTask(tasks, y).value.(parent := id)))
  {
    forall y
      ensures FetchTask(WithParent(tasks, id, SetOf(d)), y) == FetchTask(tasks, y) ||
              (y in d && FetchTask(tasks, y).Some? &&
               FetchTask(WithParent(tasks, id, SetOf(d)), y) == Some(FetchTask(tasks, y).value.(parent := id)))
    {
      FetchWithParent(tasks, id, SetOf(d), y);
    }
  }

  lemma {:induction false} FirstLiveLive(rows: seq<CaldavTask>, id: int, kind: Kind)
    ensures FirstLive(rows, id, kind) == FirstLive(LiveRows(rows, id), id, kind)
  {
    if rows != [] {
      FirstLiveLive(rows[1..], id, kind);
      var rest := LiveRows(rows[1..], id);
      if rows[0].task == id && rows[0].deleted == 0 {
        assert LiveRows(rows, id) == [rows[0]] + rest;
        assert ([rows[0]] + rest)[1..] == rest;
      } else {
        assert LiveRows(rows, id) == rest;
      }
    }
  }

  /** The binding `performMove` finds depends on the task's live rows alone. */
  lemma BindingByLiveRows(a: seq<CaldavTask>, b: seq<CaldavTask>, id: int)
    requires LiveRows(a, id) == LiveRows(b, id)
    ensures BindingOf(a, id) == BindingOf(b, id)
  {
    FirstLiveLive(a, id, GoogleTasks);
    FirstLiveLive(b, id, GoogleTasks);
    FirstLiveLive(a, id, CalDav);
    FirstLiveLive(b, id, CalDav);
  }

  /** A task's strategy expectations and whether it is already in place carry over to a store that agrees on its subtree. */
  lemma MovableKept(w: World, w': World, id: int, dest: Filter)
    requires forall x :: x in Descendants(w'.tasks, [id]) <==> x in Descendants(w.tasks, [id])
    requires forall x :: x in Subtree(w, id) ==> LiveRows(w'.rows, x) == LiveRows(w.rows, x)
    requires Movable(w, id, dest)
    ensures Movable(w', id, dest) && AlreadyIn(w'.rows, id, dest) == AlreadyIn(w.rows, id, dest)
  {
    assert id in Subtree(w, id);
    BindingByLiveRows(w'.rows, w.rows, id);
  }

  lemma {:induction false} WellFormedTail(tasks: seq<Task>)
    requires WellFormed(tasks) && tasks != []
    ensures WellFormed(tasks[1..]) && forall u :: u in tasks[1..] ==> u.id != tasks[0].id
  {
    forall u | u in tasks[1..] ensures u.id != tasks[0].id {
      var i :| 0 <= i < |tasks[1..]| && tasks[1..][i] == u;
      assert tasks[i + 1] == u;
    }
    forall a, b | 0 <= a < b < |tasks[1..]| ensures tasks[1..][a].id != tasks[1..][b].id {
      assert tasks[1..][a] == tasks[a + 1] && tasks[1..][b] == tasks[b + 1];
    }
  }

  lemma WellFormedCons(t: Task, rest: seq<Task>)
    requires WellFormed(rest) && t.id > 0 && forall u :: u in rest ==> u.id != t.id
    ensures WellFormed([t] + rest)
  {
    var all := [t] + rest;
    forall a, b | 0 <= a < b < |all| ensures all[a].id != all[b].id {
      assert all[b] == rest[b - 1];
      if a > 0 {
        assert all[a] == rest[a - 1];
      } else {
        assert rest[b - 1] in rest;
      }
    }
  }

  lemma {:induction false} FetchTasksWellFormed(tasks: seq<Task>, ids: set<int>)
    requires WellFormed(tasks)
    ensures WellFormed(FetchTasks(tasks, ids))
  {
    if tasks != [] {
      WellFormedTail(tasks);
      FetchTasksWellFormed(tasks[1..], ids);
      if tasks[0].id in ids {
        WellFormedCons(tasks[0], FetchTasks(tasks[1..], ids));
      }
    }
  }

  lemma {:induction false} NotReadOnlyWellFormed(tasks: seq<Task>)
    requires WellFormed(tasks)
    ensures WellFormed(NotReadOnly(tasks))
  {
    if tasks != [] {
      WellFormedTail(tasks);
      NotReadOnlyWellFormed(tasks[1..]);
      if !tasks[0].readOnly {
        WellFormedCons(tasks[0], NotReadOnly(tasks[1..]));
      }
    }
  }

  /** The processed tasks of a batch: distinct tasks of the table, requested, none below a requested task. */
  ghost predicate Processed(tasks: seq<Task>, ids: seq<int>, roots: seq<Task>) {
    WellFormed(tasks) && WellFormed(roots) &&
    forall j :: 0 <= j < |roots| ==> roots[j] in tasks && roots[j].id in ids && roots[j].id !in Descendants(tasks, ids)
  }

  lemma RootsProcessed(tasks: seq<Task>, ids: seq<int>)
    requires WellFormed(tasks)
    ensures Processed(tasks, ids, Roots(tasks, ids))
  {
    FetchTasksWellFormed(tasks, SetOf(ids) - SetOf(Descendants(tasks, ids)));
    NotReadOnlyWellFormed(FetchTasks(tasks, SetOf(ids) - SetOf(Descendants(tasks, ids))));
    var roots := Roots(tasks, ids);
    forall j | 0 <= j < |roots| ensures roots[j] in tasks && roots[j].id in ids && roots[j].id !in Descendants(tasks, ids) {
      assert roots[j] in roots;
    }
  }

  /** Distinct processed tasks have disjoint subtrees, and none is its own descendant. */
  lemma ProcessedApart(tasks: seq<Task>, ids: seq<int>, roots: seq<Task>, i: int, j: int, x: int)
    requires Processed(tasks, ids, roots) && 0 <= i < |roots| && 0 <= j < |roots|
    requires x == roots[i].id || x in Descendants(tasks, [roots[i].id])
    ensures i != j ==> x != roots[j].id && x !in Descendants(tasks, [roots[j].id])
    ensures roots[i].id !in Descendants(tasks, [roots[i].id])
  {
    var a := roots[i].id;
    if a in Descendants(tasks, [a]) {
      DescendantsWithin(tasks, a, ids, a);
    }
    if i != j {
      SubtreesApart(tasks, ids, a, roots[j].id, x);
    }
  }

  /** `x` is in the subtree of one of the first `n` processed tasks. */
  ghost predicate Covered(w: World, roots: seq<Task>, n: int, x: int)
    requires n <= |roots|
  {
    exists i :: 0 <= i < n && x in Subtree(w, roots[i].id)
  }

  /** Where the batch leaves `x`, of the subtree of processed task `id`: in place when `id` was already in the destination, else bound to it alone. */
  ghost predicate Settled(w: World, rows: seq<CaldavTask>, id: int, x: int, dest: Filter)
    requires !dest.OtherFilter?
  {
    if AlreadyIn(w.rows, id, dest) then LiveRows(rows, x) == LiveRows(w.rows, x) else BoundTo(rows, x, dest)
  }

  /** The later processed tasks (from the `n`-th on) still have their original subtrees. */
  ghost predicate ShapeKept(w: World, roots: seq<Task>, W: World, n: int)
    requires 0 <= n <= |roots|
  {
    WellFormed(W.tasks) &&
    (forall y :: FetchTask(W.tasks, y).Some? <==> FetchTask(w.tasks, y).Some?) &&
    forall j, x :: n <= j < |roots| ==>
      (x in Descendants(W.tasks, [roots[j].id]) <==> x in Descendants(w.tasks, [roots[j].id]))
  }

  /** The subtrees of the later processed tasks keep their rows. */
  ghost predicate Pending(w: World, roots: seq<Task>, W: World, n: int)
    requires 0 <= n <= |roots|
  {
    forall j, x :: n <= j < |roots| && x in Subtree(w, roots[j].id) ==> LiveRows(W.rows, x) == LiveRows(w.rows, x)
  }

  /** The subtrees of the first `n` processed tasks are settled. */
  ghost predicate Done(w: World, roots: seq<Task>, dest: Filter, W: World, n: int)
    requires 0 <= n <= |roots| && !dest.OtherFilter?
  {
    forall i, x :: 0 <= i < n && x in Subtree(w, roots[i].id) ==> Settled(w, W.rows, roots[i].id, x, dest)
  }

  /** Every task outside the subtrees of the first `n` processed tasks keeps its rows. */
  ghost predicate Outside(w: World, roots: seq<Task>, W: World, n: int)
    requires 0 <= n <= |roots|
  {
    forall x :: !Covered(w, roots, n, x) ==> LiveRows(W.rows, x) == LiveRows(w.rows, x)
  }

  /** The store `W` after the first `n` processed tasks have moved. */
  ghost predicate Progress(w: World, roots: seq<Task>, dest: Filter, W: World, n: int)
    requires 0 <= n <= |roots| && !dest.OtherFilter?
  {
    ShapeKept(w, roots, W, n) && Pending(w, roots, W, n) && Done(w, roots, dest, W, n) && Outside(w, roots, W, n)
  }

  /** `after` differs from `before` at most in re-parenting tasks of `sub` under `r`. */
  ghost predicate Reshaped(before: seq<Task>, after: seq<Task>, sub: seq<int>, r: int) {
    forall y :: FetchTask(after, y) == FetchTask(before, y) ||
      (y in sub && FetchTask(before, y).Some? && FetchTask(after, y) == Some(FetchTask(before, y).value.(parent := r)))
  }

  /** Every task outside `sub` has the same live rows in both tables. */
  ghost predicate RowsKept(before: seq<CaldavTask>, after: seq<CaldavTask>, sub: seq<int>) {
    forall x :: x !in sub ==> LiveRows(after, x) == LiveRows(before, x)
  }

  /** Clearing the parents of requested tasks that are no descendant of a requested task leaves the subtree of each such task as it was. */
  lemma ClearedShape(tasks: seq<Task>, ids: seq<int>, cleared: set<int>, r: int)
    requires WellFormed(tasks) && r > 0 && r in ids && r !in Descendants(tasks, ids)
    requires forall y :: y in cleared ==> y in ids && y !in Descendants(tasks, ids)
    ensures forall x :: x in Descendants(WithParent(tasks, 0, cleared), [r]) <==> x in Descendants(tasks, [r])
  {
    var after := WithParent(tasks, 0, cleared);
    forall y ensures FetchTask(after, y).Some? <==> FetchTask(tasks, y).Some? {
      FetchWithParent(tasks, 0, cleared, y);
    }
    forall y | FetchTask(tasks, y).Some? && FetchTask(after, y).Some? &&
               FetchTask(after, y).value.parent != FetchTask(tasks, y).value.parent
      ensures y !in Descendants(tasks, [r]) && FetchTask(after, y).value.parent != r &&
              FetchTask(after, y).value.parent !in Descendants(tasks, [r])
    {
      FetchWithParent(tasks, 0, cleared, y);
      if y in Descendants(tasks, [r]) {
        DescendantsWithin(tasks, r, ids, y);
      }
      if 0 in Descendants(tasks, [r]) {
        IdsArePositive(tasks, 0);
      }
    }
    DescendantsFrame(tasks, after, r);
  }

  /** The tasks whose parent the batch clears are processed tasks. */
  lemma DetachedAreProcessed(tasks: seq<Task>, ids: seq<int>, roots: seq<Task>, y: int)
    requires Processed(tasks, ids, roots) && y in SetOf(IdsOf(roots))
    ensures y in ids && y !in Descendants(tasks, ids)
  {
    var k :| 0 <= k < |roots| && IdsOf(roots)[k] == y;
  }

  /** Before any move: only the processed tasks lost their parent, which changes no processed subtree. */
  lemma ProgressStart(w: World, ids: seq<int>, dest: Filter)
    requires WellFormed(w.tasks) && !dest.OtherFilter?
    ensures Progress(w, Roots(w.tasks, ids), dest, Detached(w, ids), 0)
  {
    var roots := Roots(w.tasks, ids);
    var cleared := SetOf(ids) * SetOf(IdsOf(roots));
    var W := Detached(w, ids);
    assert W.tasks == WithParent(w.tasks, 0, cleared);
    RootsProcessed(w.tasks, ids);
    forall y | y in cleared ensures y in ids && y !in Descendants(w.tasks, ids) {
      DetachedAreProcessed(w.tasks, ids, roots, y);
    }
    forall y ensures FetchTask(W.tasks, y).Some? <==> FetchTask(w.tasks, y).Some? {
      FetchWithParent(w.tasks, 0, cleared, y);
    }
    WithParentWellFormed(w.tasks, 0, cleared);
    forall j | 0 <= j < |roots|
      ensures forall x :: x in Descendants(W.tasks, [roots[j].id]) <==> x in Descendants(w.tasks, [roots[j].id])
    {
      assert roots[j] in w.tasks;
      ClearedShape(w.tasks, ids, cleared, roots[j].id);
    }
    assert ShapeKept(w, roots, W, 0);
  }

  /** What one `performMove` of the batch does, in the terms Progress needs. */
  lemma StepEffect(w: World, ids: seq<int>, roots: seq<Task>, dest: Filter, now: int, top: bool, W: World, n: int)
    requires Processed(w.tasks, ids, roots) && 0 <= n < |roots| && now != 0 && !dest.OtherFilter?
    requires Movable(w, roots[n].id, dest) && Progress(w, roots, dest, W, n)
    ensures var W' := Perform(W, roots[n].id, dest, now, top);
            WellFormed(W'.tasks) &&
            Reshaped(W.tasks, W'.tasks, Descendants(w.tasks, [roots[n].id]), roots[n].id) &&
            (AlreadyIn(w.rows, roots[n].id, dest) ==> W' == W) &&
            (!AlreadyIn(w.rows, roots[n].id, dest) ==> forall x :: x in Subtree(w, roots[n].id) ==> BoundTo(W'.rows, x, dest)) &&
            RowsKept(W.rows, W'.rows, Subtree(w, roots[n].id))
  {
    var r := roots[n].id;
    assert roots[n] in w.tasks;
    assert FetchTask(W.tasks, r).Some?;
    ProcessedApart(w.tasks, ids, roots, n, n, r);
    MovableKept(w, W, r, dest);
    PerformPlaces(W, r, dest, now, top);
    PerformReshapes(W, r, dest, now, top);
  }

  /** The subtree of a later processed task is the same after the move of the `n`-th. */
  lemma StepShape(w: World, ids: seq<int>, roots: seq<Task>, W: World, W': World, n: int, j: int)
    requires Processed(w.tasks, ids, roots) && 0 <= n < j < |roots|
    requires WellFormed(W.tasks) && WellFormed(W'.tasks)
    requires forall x :: x in Descendants(W.tasks, [roots[j].id]) <==> x in Descendants(w.tasks, [roots[j].id])
    requires Reshaped(W.tasks, W'.tasks, Descendants(w.tasks, [roots[n].id]), roots[n].id)
    ensures forall x :: x in Descendants(W'.tasks, [roots[j].id]) <==> x in Descendants(w.tasks, [roots[j].id])
  {
    var r, rj := roots[n].id, roots[j].id;
    ProcessedApart(w.tasks, ids, roots, n, j, r);
    forall y | FetchTask(W.tasks, y).Some? && FetchTask(W'.tasks, y).Some? &&
               FetchTask(W'.tasks, y).value.parent != FetchTask(W.tasks, y).value.parent
      ensures y !in Descendants(W.tasks, [rj]) && FetchTask(W'.tasks, y).value.parent != rj &&
              FetchTask(W'.tasks, y).value.parent !in Descendants(W.tasks, [rj])
    {
      ProcessedApart(w.tasks, ids, roots, n, j, y);
    }
    DescendantsFrame(W.tasks, W'.tasks, rj);
  }

  lemma StepShapeKept(w: World, ids: seq<int>, roots: seq<Task>, W: World, W': World, n: int)
    requires Processed(w.tasks, ids, roots) && 0 <= n < |roots|
    requires ShapeKept(w, roots, W, n) && WellFormed(W'.tasks)
    requires Reshaped(W.tasks, W'.tasks, Descendants(w.tasks, [roots[n].id]), roots[n].id)
    ensures ShapeKept(w, roots, W', n + 1)
  {
    forall y ensures FetchTask(W'.tasks, y).Some? <==> FetchTask(w.tasks, y).Some? {
    }
    forall j | n + 1 <= j < |roots|
      ensures forall x :: x in Descendants(W'.tasks, [roots[j].id]) <==> x in Descendants(w.tasks, [roots[j].id])
    {
      StepShape(w, ids, roots, W, W', n, j);
    }
  }

  lemma StepPending(w: World, ids: seq<int>, roots: seq<Task>, W: World, W': World, n: int)
    requires Processed(w.tasks, ids, roots) && 0 <= n < |roots|
    requires Pending(w, roots, W, n) && RowsKept(W.rows, W'.rows, Subtree(w, roots[n].id))
    ensures Pending(w, roots, W', n + 1)
  {
    forall j, x | n + 1 <= j < |roots| && x in Subtree(w, roots[j].id)
      ensures LiveRows(W'.rows, x) == LiveRows(w.rows, x)
    {
      ProcessedApart(w.tasks, ids, roots, j, n, x);
    }
  }

  lemma StepDone(w: World, ids: seq<int>, roots: seq<Task>, dest: Filter, W: World, W': World, n: int)
    requires Processed(w.tasks, ids, roots) && 0 <= n < |roots| && !dest.OtherFilter?
    requires Done(w, roots, dest, W, n) && Pending(w, roots, W, n)
    requires RowsKept(W.rows, W'.rows, Subtree(w, roots[n].id))
    requires AlreadyIn(w.rows, roots[n].id, dest) ==> W' == W
    requires !AlreadyIn(w.rows, roots[n].id, dest) ==> forall x :: x in Subtree(w, roots[n].id) ==> BoundTo(W'.rows, x, dest)
    ensures Done(w, roots, dest, W', n + 1)
  {
    forall i, x | 0 <= i < n + 1 && x in Subtree(w, roots[i].id)
      ensures Settled(w, W'.rows, roots[i].id, x, dest)
    {
      if i < n {
        ProcessedApart(w.tasks, ids, roots, i, n, x);
      }
    }
  }

  lemma StepOutside(w: World, roots: seq<Task>, W: World, W': World, n: int)
    requires 0 <= n < |roots|
    requires Outside(w, roots, W, n) && RowsKept(W.rows, W'.rows, Subtree(w, roots[n].id))
    ensures Outside(w, roots, W', n + 1)
  {
    forall x | !Covered(w, roots, n + 1, x) ensures LiveRows(W'.rows, x) == LiveRows(w.rows, x) {
      assert !Covered(w, roots, n, x);
    }
  }

  lemma ProgressStep(w: World, ids: seq<int>, roots: seq<Task>, dest: Filter, now: int, top: bool, W: World, n: int)
    requires Processed(w.tasks, ids, roots) && 0 <= n < |roots| && now != 0 && !dest.OtherFilter?
    requires Movable(w, roots[n].id, dest) && Progress(w, roots, dest, W, n)
    ensures Progress(w, roots, dest, Perform(W, roots[n].id, dest, now, top), n + 1)
  {
    var W' := Perform(W, roots[n].id, dest, now, top);
    StepEffect(w, ids, roots, dest, now, top, W, n);
    StepShapeKept(w, ids, roots, W, W', n);
    StepPending(w, ids, roots, W, W', n);
    StepDone(w, ids, roots, dest, W, W', n);
    StepOutside(w, roots, W, W', n);
  }

  lemma {:induction false} BatchProgress(w: World, ids: seq<int>, dest: Filter, now: int, top: bool, n: int)
    requires WellFormed(w.tasks) && now != 0 && !dest.OtherFilter?
    requires 0 <= n <= |Roots(w.tasks, ids)|
    requires forall t :: t in Roots(w.tasks, ids) ==> Movable(w, t.id, dest)
    ensures Progress(w, Roots(w.tasks, ids), dest, PerformAll(Detached(w, ids), Roots(w.tasks, ids)[..n], dest, now, top), n)
    decreases n
  {
    var roots := Roots(w.tasks, ids);
    if n == 0 {
      assert roots[..0] == [];
      ProgressStart(w, ids, dest);
    } else {
      BatchProgress(w, ids, dest, now, top, n - 1);
      PerformAllSnoc(Detached(w, ids), roots, n - 1, dest, now, top);
      RootsProcessed(w.tasks, ids);
      assert roots[n - 1] in roots;
      ProgressStep(w, ids, roots, dest, now, top, PerformAll(Detached(w, ids), roots[..n - 1], dest, now, top), n - 1);
    }
  }

  /**
   * `move(ids, selectedList)` to a valid destination, given what each
   * processed task's strategy expects of its subtree: every processed task
   * and each of its descendants ends with exactly one live row, in the
   * destination (unless the task was already there, when its subtree keeps
   * its rows), and every task outside the processed subtrees keeps its rows.
   */
  lemma BatchPlaces(w: World, ids: seq<int>, dest: Filter, now: int, top: bool)
    requires WellFormed(w.tasks) && now != 0 && !dest.OtherFilter?
    requires forall t :: t in Roots(w.tasks, ids) ==> Movable(w, t.id, dest)
    ensures forall t, x :: t in Roots(w.tasks, ids) && !AlreadyIn(w.rows, t.id, dest) && x in Subtree(w, t.id) ==>
              BoundTo(BatchMove(w, ids, dest, now, top).rows, x, dest)
    ensures forall t, x :: t in Roots(w.tasks, ids) && AlreadyIn(w.rows, t.id, dest) && x in Subtree(w, t.id) ==>
              LiveRows(BatchMove(w, ids, dest, now, top).rows, x) == LiveRows(w.rows, x)
    ensures forall x :: (forall t :: t in Roots(w.tasks, ids) ==> x !in Subtree(w, t.id)) ==>
              LiveRows(BatchMove(w, ids, dest, now, top).rows, x) == LiveRows(w.rows, x)
  {
    var roots := Roots(w.tasks, ids);
    BatchProgress(w, ids, dest, now, top, |roots|);
    BatchRows(w, ids, dest, now, top);
    ProgressEnd(w, roots, dest, PerformAll(Detached(w, ids), roots[..|roots|], dest, now, top),
                BatchMove(w, ids, dest, now, top).rows);
  }

  /** The rows after the batch are those left by the moves of the processed tasks, in order. */
  lemma BatchRows(w: World, ids: seq<int>, dest: Filter, now: int, top: bool)
    ensures BatchMove(w, ids, dest, now, top).rows ==
            PerformAll(Detached(w, ids), Roots(w.tasks, ids)[..|Roots(w.tasks, ids)|], dest, now, top).rows
  {
    var roots := Roots(w.tasks, ids);
    assert roots[..|roots|] == roots;
  }

  /** Once every processed task has moved, each subtree is settled and nothing else moved. */
  lemma ProgressEnd(w: World, roots: seq<Task>, dest: Filter, W: World, rows: seq<CaldavTask>)
    requires !dest.OtherFilter? && Progress(w, roots, dest, W, |roots|) && rows == W.rows
    ensures forall t, x :: t in roots && !AlreadyIn(w.rows, t.id, dest) && x in Subtree(w, t.id) ==> BoundTo(rows, x, dest)
    ensures forall t, x :: t in roots && AlreadyIn(w.rows, t.id, dest) && x in Subtree(w, t.id) ==>
              LiveRows(rows, x) == LiveRows(w.rows, x)
    ensures forall x :: (forall t :: t in roots ==> x !in Subtree(w, t.id)) ==> LiveRows(rows, x) == LiveRows(w.rows, x)
  {
    forall t, x | t in roots && x in Subtree(w, t.id) ensures Settled(w, W.rows, t.id, x, dest) {
      var i :| 0 <= i < |roots| && roots[i] == t;
    }
    forall x | forall t :: t in roots ==> x !in Subtree(w, t.id)
      ensures LiveRows(W.rows, x) == LiveRows(w.rows, x)
    {
      assert !Covered(w, roots, |roots|, x) by {
        forall i | 0 <= i < |roots| ensures x !in Subtree(w, roots[i].id) {
          assert roots[i] in roots;
        }
      }
    }
  }
}
