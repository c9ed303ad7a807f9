/**
 * The in-memory store that stands for the task table, the association
 * table (`caldav_tasks`, used for both CalDAV calendars and Google-Tasks
 * lists) and the calendar/account registry.  The DAO queries the relocation
 * engine issues are the functions below; the DAO writes are the methods of
 * `Database`.
 */
module TaskStore {
  import opened Wrappers

  /** A row of the task table; `parent == 0` marks a top-level task. */
  datatype Task = Task(id: int, parent: int, readOnly: bool, modified: int)

  /** The backend a list belongs to, i.e. the type of the account owning it. */
  datatype Kind = CalDav | GoogleTasks

  /**
   * The id a task has on the server side.  Ids are opaque tokens compared
   * only for equality: `Generated(n)` is the `n`-th one the `CaldavTask`
   * constructor hands out (its uuid generator, which never repeats
   * itself), `Existing` one the table already held.
   */
  datatype RemoteId = Generated(n: nat) | Existing(text: string)

  /**
   * A row of the association table, binding `task` to the list `calendar`.
   * `deleted == 0` marks a live row; otherwise it is a tombstone stamped
   * with the time of deletion.
   */
  datatype CaldavTask = CaldavTask(
    task: int,
    calendar: string,
    kind: Kind,
    remoteId: Option<RemoteId>,
    obj: Option<string>,
    remoteParent: Option<RemoteId>,
    deleted: int)

  /** An insertion made "with ordering": the task goes to the top or the bottom of its new list. */
  datatype Placement = Placement(task: int, list: string, top: bool)

  /** A calendar record (`caldav_lists`), with the uuid of the account owning it. */
  datatype Calendar = Calendar(uuid: string, account: Option<string>)

  datatype Account = Account(accountType: int)

  /** The account type whose calendars are Google-Tasks lists. */
  const TYPE_GOOGLE_TASKS: int := 7

  predicate Distinct<T(==)>(s: seq<T>) {
    forall i, j :: 0 <= i < j < |s| ==> s[i] != s[j]
  }

  function Ids(tasks: seq<Task>): set<int> {
    set t | t in tasks :: t.id
  }

  /** Task ids are positive (0 means "no parent") and the id column is a key. */
  predicate WellFormed(tasks: seq<Task>) {
    (forall i :: 0 <= i < |tasks| ==> tasks[i].id > 0) &&
    (forall i, j :: 0 <= i < j < |tasks| ==> tasks[i].id != tasks[j].id)
  }

  // ---------------------------------------------------------------------
  // Queries on the task table

  /** `taskDao.fetch(id)`: the task with that id, if any. */
  function FetchTask(tasks: seq<Task>, id: int): (r: Option<Task>)
    ensures r.Some? <==> id in Ids(tasks)
    ensures r.Some? ==> r.value in tasks && r.value.id == id
  {
    if tasks == [] then None
    else if tasks[0].id == id then Some(tasks[0])
    else FetchTask(tasks[1..], id)
  }

  lemma {:induction false} FetchFinds(tasks: seq<Task>, i: int)
    requires WellFormed(tasks) && 0 <= i < |tasks|
    ensures FetchTask(tasks, tasks[i].id) == Some(tasks[i])
  {
    if i > 0 {
      assert tasks[0].id != tasks[i].id;
      assert WellFormed(tasks[1..]) by {
        forall a, b | 0 <= a < b < |tasks[1..]| ensures tasks[1..][a].id != tasks[1..][b].id {
          assert tasks[1..][a] == tasks[a + 1] && tasks[1..][b] == tasks[b + 1];
        }
      }
      FetchFinds(tasks[1..], i - 1);
    }
  }

  /** `taskDao.fetch(ids)`: the tasks whose id is in `ids`, in table order. */
  function FetchTasks(tasks: seq<Task>, ids: set<int>): (r: seq<Task>)
    ensures forall t :: t in r <==> t in tasks && t.id in ids
  {
    if tasks == [] then []
    else (if tasks[0].id in ids then [tasks[0]] else []) + FetchTasks(tasks[1..], ids)
  }

  /** `ids.mapNotNull { taskDao.fetch(it) }`. */
  function FetchEach(tasks: seq<Task>, ids: seq<int>): seq<Task> {
    if ids == [] then []
    else
      match FetchTask(tasks, ids[0])
      case None => FetchEach(tasks, ids[1..])
      case Some(t) => [t] + FetchEach(tasks, ids[1..])
  }

  /** When every id is in the table, `FetchEach` returns one task per id, in the order of `ids`. */
  lemma {:induction false} FetchEachAll(tasks: seq<Task>, ids: seq<int>)
    requires forall k :: 0 <= k < |ids| ==> ids[k] in Ids(tasks)
    ensures |FetchEach(tasks, ids)| == |ids|
    ensures forall k :: 0 <= k < |ids| ==> Some(FetchEach(tasks, ids)[k]) == FetchTask(tasks, ids[k])
  {
    if ids != [] {
      FetchEachAll(tasks, ids[1..]);
      forall k | 0 <= k < |ids| ensures Some(FetchEach(tasks, ids)[k]) == FetchTask(tasks, ids[k]) {
        if k > 0 {
          assert ids[1..][k - 1] == ids[k];
        }
      }
    }
  }

  /** The ids of the tasks whose parent is `p`, in table order. */
  function ChildIds(tasks: seq<Task>, p: int): (r: seq<int>)
    ensures forall x :: x in r ==> x in Ids(tasks)
  {
    if tasks == [] then []
    else (if tasks[0].parent == p then [tasks[0].id] else []) + ChildIds(tasks[1..], p)
  }

  lemma {:induction false} ChildIdsParent(tasks: seq<Task>, p: int, x: int)
    requires x in ChildIds(tasks, p)
    ensures exists i :: 0 <= i < |tasks| && tasks[i].id == x && tasks[i].parent == p
  {
    if tasks[0].parent != p || tasks[0].id != x {
      ChildIdsParent(tasks[1..], p, x);
      var i :| 0 <= i < |tasks[1..]| && tasks[1..][i].id == x && tasks[1..][i].parent == p;
      assert tasks[i + 1] == tasks[1..][i];
    }
  }

  /** The elements of `cs` not in `seen`, first occurrences only, in order. */
  function Unseen<T(==,!new)>(cs: seq<T>, seen: set<T>): (r: seq<T>)
    ensures forall x :: x in r <==> x in cs && x !in seen
    ensures Distinct(r)
  {
    if cs == [] then []
    else if cs[0] in seen then Unseen(cs[1..], seen)
    else [cs[0]] + Unseen(cs[1..], seen + {cs[0]})
  }

  function SetOf<T(!new)>(s: seq<T>): set<T> {
    set x | x in s
  }

  lemma UnvisitedShrinks(all: set<int>, seen: set<int>, extra: set<int>, x: int)
    requires extra <= all && extra !! seen && x in extra
    ensures |all - (seen + extra)| < |all - seen|
  {
    var before, after := all - seen, all - (seen + extra);
    assert x in before && after <= before - {x};
    SubsetCardinality(after, before - {x});
  }

  lemma SubsetCardinality(a: set<int>, b: set<int>)
    requires a <= b
    ensures |a| <= |b|
  {
    assert b == a + (b - a) && a * (b - a) == {};
  }

  /** The children of the first frontier task that the walk has not seen yet. */
  function Found(tasks: seq<Task>, frontier: seq<int>, seen: set<int>): (r: seq<int>)
    requires frontier != []
    ensures Distinct(r)
    ensures forall x :: x in r ==> x !in seen && x in Ids(tasks)
  {
    Unseen(ChildIds(tasks, frontier[0]), seen)
  }

  /**
   * Breadth-first walk down the parent pointers: the children of each
   * frontier task not seen yet, then their own descendants.  The seen set
   * keeps the walk finite even if the parent pointers had a cycle.
   */
  function Walk(tasks: seq<Task>, frontier: seq<int>, seen: set<int>): (r: seq<int>)
    ensures Distinct(r)
    ensures forall x :: x in r ==> x !in seen && x in Ids(tasks)
    decreases |Ids(tasks) - seen|, |frontier|
  {
    if frontier == [] then []
    else
      var found := Found(tasks, frontier, seen);
      if found == [] then
        Walk(tasks, frontier[1..], seen)
      else
        UnvisitedShrinks(Ids(tasks), seen, SetOf(found), found[0]);
        var rest := Walk(tasks, frontier[1..] + found, seen + SetOf(found));
        assert Distinct(found + rest) by {
          forall i, j | 0 <= i < j < |found + rest| ensures (found + rest)[i] != (found + rest)[j] {
            if j >= |found| && i < |found| {
              assert (found + rest)[i] in SetOf(found);
              assert (found + rest)[j] in rest;
            }
          }
        }
        found + rest
  }

  /**
   * `taskDao.getChildren(ids)`: every descendant of the given tasks, each
   * once, parents before their children (see DescendantsParentFirst).  An
   * id of `roots` is in the result when it descends from another root.
   */
  function Descendants(tasks: seq<Task>, roots: seq<int>): (r: seq<int>)
    ensures Distinct(r)
    ensures forall x :: x in r ==> x in Ids(tasks)
  {
    Walk(tasks, roots, {})
  }

  lemma DescendantsKnown(tasks: seq<Task>, roots: seq<int>)
    ensures forall k :: 0 <= k < |Descendants(tasks, roots)| ==> Descendants(tasks, roots)[k] in Ids(tasks)
  {
    var d := Descendants(tasks, roots);
    forall k | 0 <= k < |d| ensures d[k] in Ids(tasks) {
      assert d[k] in d;
    }
  }

  /** Every descendant is in the table, so fetching them one by one finds one task for each. */
  lemma FetchDescendantsLength(tasks: seq<Task>, roots: seq<int>)
    ensures |FetchEach(tasks, Descendants(tasks, roots))| == |Descendants(tasks, roots)|
  {
    DescendantsKnown(tasks, roots);
    FetchEachAll(tasks, Descendants(tasks, roots));
  }

  /** The `k`-th task fetched is the `k`-th descendant. */
  lemma FetchDescendantAt(tasks: seq<Task>, roots: seq<int>, k: int)
    requires 0 <= k < |Descendants(tasks, roots)|
    ensures k < |FetchEach(tasks, Descendants(tasks, roots))|
    ensures Some(FetchEach(tasks, Descendants(tasks, roots))[k]) == FetchTask(tasks, Descendants(tasks, roots)[k])
  {
    DescendantsKnown(tasks, roots);
    FetchEachAll(tasks, Descendants(tasks, roots));
  }

  lemma IdsArePositive(tasks: seq<Task>, x: int)
    requires WellFormed(tasks) && x in Ids(tasks)
    ensures x > 0
  {
    var t :| t in tasks && t.id == x;
    var i :| 0 <= i < |tasks| && tasks[i] == t;
  }

  /** A task found by the walk is a child of its first frontier task. */
  lemma FoundHasParent(tasks: seq<Task>, frontier: seq<int>, seen: set<int>, x: int)
    requires WellFormed(tasks) && frontier != [] && x in Found(tasks, frontier, seen)
    ensures FetchTask(tasks, x).Some? && FetchTask(tasks, x).value.parent == frontier[0]
  {
    ChildIdsParent(tasks, frontier[0], x);
    var i :| 0 <= i < |tasks| && tasks[i].id == x && tasks[i].parent == frontier[0];
    FetchFinds(tasks, i);
  }

  /** Each task of `w` exists, and its parent is in `frontier` or listed before it in `w`. */
  ghost predicate ParentFirst(tasks: seq<Task>, frontier: seq<int>, w: seq<int>) {
    forall k :: 0 <= k < |w| ==>
      FetchTask(tasks, w[k]).Some? &&
      (FetchTask(tasks, w[k]).value.parent in frontier || FetchTask(tasks, w[k]).value.parent in w[..k])
  }

  lemma ParentFirstWiden(tasks: seq<Task>, frontier: seq<int>, w: seq<int>)
    requires frontier != [] && ParentFirst(tasks, frontier[1..], w)
    ensures ParentFirst(tasks, frontier, w)
  {
    forall k | 0 <= k < |w| && FetchTask(tasks, w[k]).value.parent in frontier[1..]
      ensures FetchTask(tasks, w[k]).value.parent in frontier
    {
      var m :| 0 <= m < |frontier[1..]| && frontier[1..][m] == FetchTask(tasks, w[k]).value.parent;
      assert frontier[m + 1] == frontier[1..][m];
    }
  }

  /** The children found for the first frontier task, followed by a walk from the widened frontier. */
  lemma ParentFirstConcat(tasks: seq<Task>, frontier: seq<int>, found: seq<int>, rest: seq<int>)
    requires frontier != []
    requires forall m :: 0 <= m < |found| ==>
               FetchTask(tasks, found[m]).Some? && FetchTask(tasks, found[m]).value.parent == frontier[0]
    requires ParentFirst(tasks, frontier[1..] + found, rest)
    ensures ParentFirst(tasks, frontier, found + rest)
  {
    var w := found + rest;
    forall k | 0 <= k < |w|
      ensures FetchTask(tasks, w[k]).Some? &&
              (FetchTask(tasks, w[k]).value.parent in frontier || FetchTask(tasks, w[k]).value.parent in w[..k])
    {
      if k < |found| {
        assert w[k] == found[k];
      } else {
        var k' := k - |found|;
        assert w[k] == rest[k'];
        var p := FetchTask(tasks, rest[k']).value.parent;
        if p in frontier[1..] + found {
          var m :| 0 <= m < |frontier[1..] + found| && (frontier[1..] + found)[m] == p;
          if m < |frontier[1..]| {
            assert frontier[m + 1] == p;
          } else {
            assert w[m - |frontier[1..]|] == p;
          }
        } else {
          var m :| 0 <= m < k' && rest[m] == p;
          assert w[m + |found|] == p;
        }
      }
    }
  }

  lemma {:induction false} WalkParentFirst(tasks: seq<Task>, frontier: seq<int>, seen: set<int>)
    requires WellFormed(tasks)
    ensures ParentFirst(tasks, frontier, Walk(tasks, frontier, seen))
    decreases |Ids(tasks) - seen|, |frontier|
  {
    if frontier != [] {
      var found := Found(tasks, frontier, seen);
      if found == [] {
        WalkParentFirst(tasks, frontier[1..], seen);
        ParentFirstWiden(tasks, frontier, Walk(tasks, frontier[1..], seen));
      } else {
        UnvisitedShrinks(Ids(tasks), seen, SetOf(found), found[0]);
        WalkParentFirst(tasks, frontier[1..] + found, seen + SetOf(found));
        forall m | 0 <= m < |found|
          ensures FetchTask(tasks, found[m]).Some? && FetchTask(tasks, found[m]).value.parent == frontier[0]
        {
          FoundHasParent(tasks, frontier, seen, found[m]);
        }
        ParentFirstConcat(tasks, frontier, found, Walk(tasks, frontier[1..] + found, seen + SetOf(found)));
      }
    }
  }

  /** Every descendant is a task whose parent is a root or an earlier descendant. */
  lemma DescendantsParentFirst(tasks: seq<Task>, roots: seq<int>, k: int)
    requires WellFormed(tasks)
    requires 0 <= k < |Descendants(tasks, roots)|
    ensures FetchTask(tasks, Descendants(tasks, roots)[k]).Some?
    ensures var p := FetchTask(tasks, Descendants(tasks, roots)[k]).value.parent;
            p in roots || p in Descendants(tasks, roots)[..k]
  {
    WalkParentFirst(tasks, roots, {});
  }

  lemma {:induction false} ChildIdsHas(tasks: seq<Task>, p: int, i: int)
    requires 0 <= i < |tasks| && tasks[i].parent == p
    ensures tasks[i].id in ChildIds(tasks, p)
  {
    if i > 0 {
      assert tasks[1..][i - 1] == tasks[i];
      ChildIdsHas(tasks[1..], p, i - 1);
    }
  }

  /**
   * The walk misses no child: a task whose parent is on the frontier or
   * was found by the walk is found by it, unless it had been seen before.
   */
  lemma {:induction false} WalkClosed(tasks: seq<Task>, frontier: seq<int>, seen: set<int>, i: int)
    requires 0 <= i < |tasks|
    requires tasks[i].parent in frontier || tasks[i].parent in Walk(tasks, frontier, seen)
    ensures tasks[i].id in seen || tasks[i].id in Walk(tasks, frontier, seen)
    decreases |Ids(tasks) - seen|, |frontier|
  {
    var p := tasks[i].parent;
    var found := Found(tasks, frontier, seen);
    if p == frontier[0] {
      ChildIdsHas(tasks, p, i);
    } else if found == [] {
      assert p in frontier[1..] || p in Walk(tasks, frontier[1..], seen);
      WalkClosed(tasks, frontier[1..], seen, i);
    } else {
      UnvisitedShrinks(Ids(tasks), seen, SetOf(found), found[0]);
      var rest := Walk(tasks, frontier[1..] + found, seen + SetOf(found));
      assert p in frontier[1..] + found || p in rest;
      WalkClosed(tasks, frontier[1..] + found, seen + SetOf(found), i);
    }
  }

  /**
   * `getChildren` returns the whole subtree: every task whose parent is a
   * root or a descendant is itself a descendant.  With
   * DescendantsParentFirst, the descendants are exactly the tasks below the
   * roots.
   */
  lemma DescendantsComplete(tasks: seq<Task>, roots: seq<int>, i: int)
    requires 0 <= i < |tasks|
    requires tasks[i].parent in roots || tasks[i].parent in Descendants(tasks, roots)
    ensures tasks[i].id in Descendants(tasks, roots)
  {
    WalkClosed(tasks, roots, {}, i);
  }

  /** DescendantsComplete, for a task looked up by id. */
  lemma DescendantsClosed(tasks: seq<Task>, roots: seq<int>, x: int)
    requires FetchTask(tasks, x).Some?
    requires FetchTask(tasks, x).value.parent in roots || FetchTask(tasks, x).value.parent in Descendants(tasks, roots)
    ensures x in Descendants(tasks, roots)
  {
    var i :| 0 <= i < |tasks| && tasks[i] == FetchTask(tasks, x).value;
    DescendantsComplete(tasks, roots, i);
  }

  /** The subtree of one root lies within the descendants of any list of roots holding it. */
  lemma {:induction false} DescendantsMonotone(tasks: seq<Task>, b: int, roots: seq<int>, k: int)
    requires WellFormed(tasks) && b in roots
    requires 0 <= k < |Descendants(tasks, [b])|
    ensures Descendants(tasks, [b])[k] in Descendants(tasks, roots)
    decreases k
  {
    var d := Descendants(tasks, [b]);
    DescendantsParentFirst(tasks, [b], k);
    var p := FetchTask(tasks, d[k]).value.parent;
    if p != b {
      var m :| 0 <= m < k && d[m] == p;
      DescendantsMonotone(tasks, b, roots, m);
    }
    DescendantsClosed(tasks, roots, d[k]);
  }

  /**
   * Subtrees in a table of single parent pointers are nested or disjoint:
   * when the `k`-th descendant of `a` is also a descendant of `b`, one of
   * the two roots lies in the other's subtree.
   */
  lemma {:induction false} DescendantsOverlap(tasks: seq<Task>, a: int, b: int, k: int)
    requires WellFormed(tasks)
    requires 0 <= k < |Descendants(tasks, [a])| && Descendants(tasks, [a])[k] in Descendants(tasks, [b])
    ensures a == b || a in Descendants(tasks, [b]) || b in Descendants(tasks, [a])
    decreases k
  {
    var da, db := Descendants(tasks, [a]), Descendants(tasks, [b]);
    var k' :| 0 <= k' < |db| && db[k'] == da[k];
    DescendantsParentFirst(tasks, [a], k);
    DescendantsParentFirst(tasks, [b], k');
    var p := FetchTask(tasks, da[k]).value.parent;
    if p != a && p != b {
      var m :| 0 <= m < k && da[m] == p;
      DescendantsOverlap(tasks, a, b, m);
    }
  }

  /** DescendantsMonotone, for a descendant given by value. */
  lemma DescendantsWithin(tasks: seq<Task>, b: int, roots: seq<int>, x: int)
    requires WellFormed(tasks) && b in roots && x in Descendants(tasks, [b])
    ensures x in Descendants(tasks, roots)
  {
    var k :| 0 <= k < |Descendants(tasks, [b])| && Descendants(tasks, [b])[k] == x;
    DescendantsMonotone(tasks, b, roots, k);
  }

  /**
   * Two requested tasks neither of which descends from a requested task
   * have disjoint subtrees, themselves included.
   */
  lemma SubtreesApart(tasks: seq<Task>, ids: seq<int>, a: int, b: int, x: int)
    requires WellFormed(tasks) && a in ids && b in ids && a != b
    requires a !in Descendants(tasks, ids) && b !in Descendants(tasks, ids)
    requires x == a || x in Descendants(tasks, [a])
    ensures x != b && x !in Descendants(tasks, [b])
  {
    if x in Descendants(tasks, [a]) {
      DescendantsWithin(tasks, a, ids, x);
    }
    if x in Descendants(tasks, [b]) {
      DescendantsWithin(tasks, b, ids, x);
      var k :| 0 <= k < |Descendants(tasks, [a])| && Descendants(tasks, [a])[k] == x;
      DescendantsOverlap(tasks, a, b, k);
      if a in Descendants(tasks, [b]) {
        DescendantsWithin(tasks, b, ids, a);
      } else if b in Descendants(tasks, [a]) {
        DescendantsWithin(tasks, a, ids, b);
      }
    }
  }

  /**
   * Between two tables with the same tasks, only parent pointers changed,
   * and only of tasks outside the subtree of `r`, none of them now pointing
   * into it.
   */
  ghost predicate Reparented(before: seq<Task>, after: seq<Task>, r: int) {
    (forall y :: FetchTask(after, y).Some? <==> FetchTask(before, y).Some?) &&
    forall y :: FetchTask(before, y).Some? && FetchTask(after, y).Some? &&
                FetchTask(after, y).value.parent != FetchTask(before, y).value.parent ==>
      y !in Descendants(before, [r]) && FetchTask(after, y).value.parent != r &&
      FetchTask(after, y).value.parent !in Descendants(before, [r])
  }

  lemma {:induction false} ReparentedKeeps(before: seq<Task>, after: seq<Task>, r: int, k: int)
    requires WellFormed(before) && Reparented(before, after, r)
    requires 0 <= k < |Descendants(before, [r])|
    ensures Descendants(before, [r])[k] in Descendants(after, [r])
    decreases k
  {
    var d := Descendants(before, [r]);
    DescendantsParentFirst(before, [r], k);
    var p := FetchTask(before, d[k]).value.parent;
    if p != r {
      var m :| 0 <= m < k && d[m] == p;
      ReparentedKeeps(before, after, r, m);
    }
    DescendantsClosed(after, [r], d[k]);
  }

  lemma {:induction false} ReparentedAdds(before: seq<Task>, after: seq<Task>, r: int, k: int)
    requires WellFormed(after) && Reparented(before, after, r)
    requires 0 <= k < |Descendants(after, [r])|
    ensures Descendants(after, [r])[k] in Descendants(before, [r])
    decreases k
  {
    var d := Descendants(after, [r]);
    DescendantsParentFirst(after, [r], k);
    var p := FetchTask(after, d[k]).value.parent;
    if p != r {
      var m :| 0 <= m < k && d[m] == p;
      ReparentedAdds(before, after, r, m);
    }
    DescendantsClosed(before, [r], d[k]);
  }

  /** Re-parenting tasks outside a subtree, none of them into it, leaves the subtree as it was. */
  lemma DescendantsFrame(before: seq<Task>, after: seq<Task>, r: int)
    requires WellFormed(before) && WellFormed(after) && Reparented(before, after, r)
    ensures forall x :: x in Descendants(after, [r]) <==> x in Descendants(before, [r])
  {
    forall x | x in Descendants(before, [r]) ensures x in Descendants(after, [r]) {
      var k :| 0 <= k < |Descendants(before, [r])| && Descendants(before, [r])[k] == x;
      ReparentedKeeps(before, after, r, k);
    }
    forall x | x in Descendants(after, [r]) ensures x in Descendants(before, [r]) {
      var k :| 0 <= k < |Descendants(after, [r])| && Descendants(after, [r])[k] == x;
      ReparentedAdds(before, after, r, k);
    }
  }

  // ---------------------------------------------------------------------
  // Queries on the association table

  /** The live rows of `task`, in table order. */
  function LiveRows(rows: seq<CaldavTask>, task: int): seq<CaldavTask> {
    if rows == [] then []
    else (if rows[0].task == task && rows[0].deleted == 0 then [rows[0]] else []) + LiveRows(rows[1..], task)
  }

  /** The live rows of `task` are exactly the rows that bind it and are not tombstoned. */
  lemma {:induction false} LiveRowsMembers(rows: seq<CaldavTask>, task: int)
    ensures forall c :: c in LiveRows(rows, task) <==> c in rows && c.task == task && c.deleted == 0
  {
    if rows != [] {
      LiveRowsMembers(rows[1..], task);
      assert rows == [rows[0]] + rows[1..];
    }
  }

  lemma {:induction false} LiveRowsAppend(a: seq<CaldavTask>, b: seq<CaldavTask>, task: int)
    ensures LiveRows(a + b, task) == LiveRows(a, task) + LiveRows(b, task)
  {
    if a == [] {
      assert a + b == b;
    } else {
      assert (a + b)[0] == a[0] && (a + b)[1..] == a[1..] + b;
      LiveRowsAppend(a[1..], b, task);
    }
  }

  /** The first live row of `task` whose list is of the given kind. */
  function FirstLive(rows: seq<CaldavTask>, task: int, kind: Kind): (r: Option<CaldavTask>)
    ensures r.Some? <==> exists c :: c in rows && c.task == task && c.deleted == 0 && c.kind == kind
    ensures r.Some? ==> r.value in rows && r.value.task == task && r.value.deleted == 0 && r.value.kind == kind
  {
    if rows == [] then None
    else if rows[0].task == task && rows[0].deleted == 0 && rows[0].kind == kind then Some(rows[0])
    else FirstLive(rows[1..], task, kind)
  }

  /** `caldavDao.getTasks(ids)`: the live rows of the given tasks, in table order. */
  function LiveRowsOf(rows: seq<CaldavTask>, ids: set<int>): seq<CaldavTask> {
    if rows == [] then []
    else (if rows[0].task in ids && rows[0].deleted == 0 then [rows[0]] else []) + LiveRowsOf(rows[1..], ids)
  }

  /** `getTasks(ids)` returns exactly the rows of those tasks that are not tombstoned. */
  lemma {:induction false} LiveRowsOfMembers(rows: seq<CaldavTask>, ids: set<int>)
    ensures forall c :: c in LiveRowsOf(rows, ids) <==> c in rows && c.task in ids && c.deleted == 0
  {
    if rows != [] {
      LiveRowsOfMembers(rows[1..], ids);
      assert rows == [rows[0]] + rows[1..];
    }
  }

  /** The lists (with repeats) of the live rows of kind `kind` of the given tasks. */
  function ListsOf(rows: seq<CaldavTask>, ids: set<int>, kind: Kind): (r: seq<string>)
    ensures forall l :: l in r <==> exists c :: c in rows && c.task in ids && c.deleted == 0 && c.kind == kind && c.calendar == l
  {
    if rows == [] then []
    else
      var c := rows[0];
      (if c.task in ids && c.deleted == 0 && c.kind == kind then [c.calendar] else []) + ListsOf(rows[1..], ids, kind)
  }

  lemma {:induction false} DistinctCardinality<T>(s: seq<T>)
    requires Distinct(s)
    ensures |set x | x in s| == |s|
  {
    if s != [] {
      assert Distinct(s[1..]) by {
        forall i, j | 0 <= i < j < |s[1..]| ensures s[1..][i] != s[1..][j] {
          assert s[1..][i] == s[i + 1] && s[1..][j] == s[j + 1];
        }
      }
      DistinctCardinality(s[1..]);
      assert (set x | x in s) == {s[0]} + (set x | x in s[1..]);
      assert s[0] !in (set x | x in s[1..]);
    }
  }

  // ---------------------------------------------------------------------
  // Updates, as functions of the old table

  /** `taskDao.setParent(parent, ids)`. */
  function WithParent(tasks: seq<Task>, parent: int, ids: set<int>): seq<Task> {
    seq(|tasks|, i requires 0 <= i < |tasks| =>
      if tasks[i].id in ids then tasks[i].(parent := parent) else tasks[i])
  }

  /** `taskDao.touch(ids)`: bumps the modification time. */
  function Touched(tasks: seq<Task>, ids: set<int>, now: int): seq<Task> {
    seq(|tasks|, i requires 0 <= i < |tasks| =>
      if tasks[i].id in ids then tasks[i].(modified := now) else tasks[i])
  }

  /** `caldavDao.markDeleted(ids, now)`: tombstones every row of the given tasks. */
  function Tombstoned(rows: seq<CaldavTask>, ids: set<int>, now: int): seq<CaldavTask> {
    seq(|rows|, i requires 0 <= i < |rows| =>
      if rows[i].task in ids then rows[i].(deleted := now) else rows[i])
  }

  // ---------------------------------------------------------------------
  // The database the DAOs share

  class Database {
    var tasks: seq<Task>
    var caldavTasks: seq<CaldavTask>
    /** Insertions made with the top/bottom ordering preference, in order. */
    var placements: seq<Placement>
    /** Calendars whose parent bookkeeping was recomputed (`updateParents`), in order. */
    var rollups: seq<string>
    var calendars: map<int, Calendar>
    var accounts: map<string, Account>

    ghost predicate Valid()
      reads this
    {
      WellFormed(tasks)
    }

    constructor (tasks: seq<Task>, caldavTasks: seq<CaldavTask>, calendars: map<int, Calendar>, accounts: map<string, Account>)
      requires WellFormed(tasks)
      ensures Valid()
      ensures this.tasks == tasks && this.caldavTasks == caldavTasks && placements == [] && rollups == []
      ensures this.calendars == calendars && this.accounts == accounts
    {
      this.tasks := tasks;
      this.caldavTasks := caldavTasks;
      placements := [];
      rollups := [];
      this.calendars := calendars;
      this.accounts := accounts;
    }

    method SetParent(parent: int, ids: set<int>)
      requires Valid()
      modifies this`tasks
      ensures Valid()
      ensures tasks == WithParent(old(tasks), parent, ids)
    {
      tasks := WithParent(tasks, parent, ids);
    }

    method Touch(ids: set<int>, now: int)
      requires Valid()
      modifies this`tasks
      ensures Valid()
      ensures tasks == Touched(old(tasks), ids, now)
    {
      tasks := Touched(tasks, ids, now);
    }

    method MarkDeleted(ids: set<int>, now: int)
      modifies this`caldavTasks
      ensures caldavTasks == Tombstoned(old(caldavTasks), ids, now)
    {
      caldavTasks := Tombstoned(caldavTasks, ids, now);
    }

    /** Inserts one row, placed at the top or the bottom of its list. */
    method Insert(row: CaldavTask, top: bool)
      modifies this`caldavTasks, this`placements
      ensures caldavTasks == old(caldavTasks) + [row]
      ensures placements == old(placements) + [Placement(row.task, row.calendar, top)]
    {
      caldavTasks := caldavTasks + [row];
      placements := placements + [Placement(row.task, row.calendar, top)];
    }

    method InsertAll(rows: seq<CaldavTask>)
      modifies this`caldavTasks
      ensures caldavTasks == old(caldavTasks) + rows
    {
      caldavTasks := caldavTasks + rows;
    }

    method UpdateParents(calendar: string)
      modifies this`rollups
      ensures rollups == old(rollups) + [calendar]
    {
      rollups := rollups + [calendar];
    }
  }
}
