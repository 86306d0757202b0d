/**
 * The pure part of the task-manager screen: the task record, the status and
 * priority tests of the filter bar, the stable sort by due date and the list
 * computation of a local delete.
 */
module Tasks {

  /** One to-do item as fetched from the task collection. The due date is an
      integer timestamp; `priority` is whatever string the document holds. */
  datatype Task = Task(
    id: string,
    title: string,
    description: string,
    dueDate: int,
    priority: string,
    completed: bool)

  /** The filter bar's selection; `status` is "all", "completed" or
      "incomplete", `priority` is "all" or a priority level. */
  datatype TaskFilter = TaskFilter(status: string, priority: string)

  /** The filter the screen starts with. */
  const ShowAll := TaskFilter("all", "all")

  /** The status test. "completed" and "incomplete" split the tasks by
      their flag; any value other than the three buttons' hides every task. */
  predicate StatusPasses(status: string, t: Task)
    ensures StatusPasses(status, t) ==> status == "all" || status == "completed" || status == "incomplete"
    ensures status == "completed" || status == "incomplete" ==>
      (StatusPasses(status, t) <==> t.completed == (status == "completed"))
    ensures status == "all" ==> StatusPasses(status, t)
  {
    status == "all" || (status == "completed" && t.completed) || (status == "incomplete" && !t.completed)
  }

  /** The priority test: "all" passes every task, any other value only the
      tasks whose priority is exactly that value. */
  predicate PriorityPasses(priority: string, t: Task)
    ensures priority == "all" ==> PriorityPasses(priority, t)
    ensures priority != "all" ==> (PriorityPasses(priority, t) <==> t.priority == priority)
  {
    priority == "all" || t.priority == priority
  }

  /** The filter callback: a task stays when both tests pass. */
  function Matches(f: TaskFilter): (keep: Task -> bool)
    ensures forall t :: keep(t) <==> StatusPasses(f.status, t) && PriorityPasses(f.priority, t)
    ensures f == ShowAll ==> forall t :: keep(t)
    ensures f.status != "all" && f.status != "completed" && f.status != "incomplete" ==>
      forall t :: !keep(t)
    ensures forall t :: keep(t) && f.priority != "all" ==> t.priority == f.priority
  {
    (t: Task) => StatusPasses(f.status, t) && PriorityPasses(f.priority, t)
  }

  /** The callback of the local delete: keep the tasks with another id. */
  function OtherId(id: string): (keep: Task -> bool)
    ensures forall t :: keep(t) <==> t.id != id
    ensures forall t :: keep(t) != HasId(id)(t)
  {
    (t: Task) => t.id != id
  }

  function HasId(id: string): (keep: Task -> bool) {
    (t: Task) => t.id == id
  }

  function DueOn(d: int): (keep: Task -> bool) {
    (t: Task) => t.dueDate == d
  }

  // ---------------------------------------------------------------------
  // Array.prototype.filter

  /** The elements of `s` that satisfy `p`, in their order in `s`. */
  function Filter<T(!new)>(s: seq<T>, p: T -> bool): (r: seq<T>)
    ensures |r| <= |s|
  {
    if |s| == 0 then []
    else (if p(s[0]) then [s[0]] else []) + Filter(s[1..], p)
  }

  /** An element is kept iff it occurs in `s` and passes the test. */
  lemma {:induction false} FilterHas<T(!new)>(s: seq<T>, p: T -> bool, x: T)
    ensures x in Filter(s, p) <==> x in s && p(x)
  {
    if |s| > 0 {
      assert s == [s[0]] + s[1..];
      FilterHas(s[1..], p, x);
    }
  }

  /** Each kept element occurs as often as in `s`; the others not at all. */
  lemma {:induction false} FilterCount<T(!new)>(s: seq<T>, p: T -> bool, x: T)
    ensures multiset(Filter(s, p))[x] == if p(x) then multiset(s)[x] else 0
  {
    if |s| > 0 {
      assert s == [s[0]] + s[1..];
      FilterCount(s[1..], p, x);
    }
  }

  /** Filtering a sequence that starts with `x`. */
  lemma FilterCons<T(!new)>(x: T, s: seq<T>, p: T -> bool)
    ensures Filter([x] + s, p) == (if p(x) then [x] else []) + Filter(s, p)
  {
    assert ([x] + s)[1..] == s;
  }

  /** Filtering distributes over concatenation. */
  lemma {:induction false} FilterAppend<T(!new)>(a: seq<T>, b: seq<T>, p: T -> bool)
    ensures Filter(a + b, p) == Filter(a, p) + Filter(b, p)
  {
    if |a| == 0 {
      assert a + b == b;
    } else {
      assert a == [a[0]] + a[1..];
      assert a + b == [a[0]] + (a[1..] + b);
      FilterCons(a[0], a[1..] + b, p);
      FilterCons(a[0], a[1..], p);
      FilterAppend(a[1..], b, p);
    }
  }

  /** Filtering with a test every element passes gives back the same sequence. */
  lemma {:induction false} FilterKeepsAll<T(!new)>(s: seq<T>, p: T -> bool)
    requires forall x :: x in s ==> p(x)
    ensures Filter(s, p) == s
  {
    if |s| > 0 {
      FilterKeepsAll(s[1..], p);
    }
  }

  // ---------------------------------------------------------------------
  // Array.prototype.sort with the comparator `a.dueDate - b.dueDate`

  ghost predicate SortedByDue(s: seq<Task>) {
    forall i, j :: 0 <= i < j < |s| ==> s[i].dueDate <= s[j].dueDate
  }

  /** Inserts `t` in front of the first task that is not due earlier. */
  function Insert(t: Task, s: seq<Task>): (r: seq<Task>)
    ensures multiset(r) == multiset(s) + multiset{t}
  {
    if |s| == 0 then [t]
    else if t.dueDate <= s[0].dueDate then [t] + s
    else
      assert s == [s[0]] + s[1..];
      [s[0]] + Insert(t, s[1..])
  }

  /** No task of `Insert(t, s)` is due before a bound that `t` and every
      task of `s` respect. */
  lemma {:induction false} InsertBounded(t: Task, s: seq<Task>, lo: int)
    requires lo <= t.dueDate
    requires forall k :: 0 <= k < |s| ==> lo <= s[k].dueDate
    ensures forall k :: 0 <= k < |Insert(t, s)| ==> lo <= Insert(t, s)[k].dueDate
  {
    if |s| > 0 && s[0].dueDate < t.dueDate {
      var rest := Insert(t, s[1..]);
      InsertBounded(t, s[1..], lo);
      assert Insert(t, s) == [s[0]] + rest;
    }
  }

  /** A task due no later than every task of a sorted list can go in front. */
  lemma ConsSorted(x: Task, rest: seq<Task>)
    requires SortedByDue(rest)
    requires forall k :: 0 <= k < |rest| ==> x.dueDate <= rest[k].dueDate
    ensures SortedByDue([x] + rest)
  {
    var r := [x] + rest;
    forall i, j | 0 <= i < j < |r| ensures r[i].dueDate <= r[j].dueDate {
      assert r[j] == rest[j - 1];
      if i > 0 {
        assert r[i] == rest[i - 1];
      }
    }
  }

  lemma {:induction false} InsertSorted(t: Task, s: seq<Task>)
    requires SortedByDue(s)
    ensures SortedByDue(Insert(t, s))
  {
    if |s| == 0 {
    } else if t.dueDate <= s[0].dueDate {
      ConsSorted(t, s);
    } else {
      InsertSorted(t, s[1..]);
      InsertBounded(t, s[1..], s[0].dueDate);
      ConsSorted(s[0], Insert(t, s[1..]));
    }
  }

  /** Insertion sort by due date. Each task is inserted before the tasks of
      the same due date that follow it, so equal due dates keep their order. */
  function SortByDueDate(s: seq<Task>): (r: seq<Task>)
    ensures SortedByDue(r)
    ensures multiset(r) == multiset(s)
  {
    if |s| == 0 then []
    else
      assert s == [s[0]] + s[1..];
      InsertSorted(s[0], SortByDueDate(s[1..]));
      Insert(s[0], SortByDueDate(s[1..]))
  }

  lemma {:induction false} InsertByDue(t: Task, s: seq<Task>, d: int)
    requires SortedByDue(s)
    ensures Filter(Insert(t, s), DueOn(d)) == (if t.dueDate == d then [t] else []) + Filter(s, DueOn(d))
  {
    if |s| == 0 {
      FilterCons(t, [], DueOn(d));
    } else if t.dueDate <= s[0].dueDate {
      FilterCons(t, s, DueOn(d));
    } else {
      assert s == [s[0]] + s[1..];
      InsertByDue(t, s[1..], d);
      InsertByDueStep(t, s, d);
    }
  }

  /** The step of InsertByDue where `t` goes after the first task. */
  lemma InsertByDueStep(t: Task, s: seq<Task>, d: int)
    requires |s| > 0 && s[0].dueDate < t.dueDate
    requires Filter(Insert(t, s[1..]), DueOn(d)) == (if t.dueDate == d then [t] else []) + Filter(s[1..], DueOn(d))
    ensures Filter(Insert(t, s), DueOn(d)) == (if t.dueDate == d then [t] else []) + Filter(s, DueOn(d))
  {
    var rest, tail := Insert(t, s[1..]), Filter(s[1..], DueOn(d));
    assert Insert(t, s) == [s[0]] + rest;
    assert s == [s[0]] + s[1..];
    FilterCons(s[0], rest, DueOn(d));
    FilterCons(s[0], s[1..], DueOn(d));
    if t.dueDate == d {
      assert !DueOn(d)(s[0]);
      assert Filter(rest, DueOn(d)) == [t] + tail;
      assert Filter(s, DueOn(d)) == tail;
      assert Filter(Insert(t, s), DueOn(d)) == [t] + tail;
    } else {
      assert Filter(rest, DueOn(d)) == tail;
      var head := if s[0].dueDate == d then [s[0]] else [];
      assert Filter(s, DueOn(d)) == head + tail;
      assert Filter(Insert(t, s), DueOn(d)) == head + tail;
    }
  }

  /** Stability: for every due date, the tasks due then appear in the sorted
      list exactly as they appear in the input. */
  lemma {:induction false} SortIsStable(s: seq<Task>, d: int)
    ensures Filter(SortByDueDate(s), DueOn(d)) == Filter(s, DueOn(d))
  {
    if |s| > 0 {
      SortIsStable(s[1..], d);
      InsertByDue(s[0], SortByDueDate(s[1..]), d);
    }
  }

  /** Two sequences with the same head that filter alike also filter alike
      once the head is dropped. */
  lemma FilterSameHead<T(!new)>(a: seq<T>, b: seq<T>, p: T -> bool)
    requires |a| > 0 && |b| > 0 && a[0] == b[0]
    requires Filter(a, p) == Filter(b, p)
    ensures Filter(a[1..], p) == Filter(b[1..], p)
  {
    assert Filter(a, p) == (if p(a[0]) then [a[0]] else []) + Filter(a[1..], p);
    assert Filter(b, p) == (if p(b[0]) then [b[0]] else []) + Filter(b[1..], p);
    if p(a[0]) {
      assert Filter(a[1..], p) == Filter(a, p)[1..];
      assert Filter(b[1..], p) == Filter(b, p)[1..];
    } else {
      assert Filter(a[1..], p) == Filter(a, p);
      assert Filter(b[1..], p) == Filter(b, p);
    }
  }

  /** The first task survives filtering by its own due date. */
  lemma FirstIsKept(s: seq<Task>)
    ensures |s| > 0 ==> s[0] in Filter(s, DueOn(s[0].dueDate))
  {
  }

  /** No task of a sorted list is due before its first task. */
  lemma SortedHeadFirst(s: seq<Task>, x: Task)
    requires SortedByDue(s) && x in s
    ensures s[0].dueDate <= x.dueDate
  {
    var k :| 0 <= k < |s| && s[k] == x;
    assert k == 0 || s[0].dueDate <= s[k].dueDate;
  }

  /** A stable sort by due date is unique: two sequences that are both sorted
      by due date and agree on the tasks of every due date are equal. So any
      stable sort an engine uses yields `SortByDueDate` of its input. */
  lemma {:induction false} StableSortUnique(a: seq<Task>, b: seq<Task>)
    requires SortedByDue(a) && SortedByDue(b)
    requires forall d :: Filter(a, DueOn(d)) == Filter(b, DueOn(d))
    ensures a == b
    decreases |a| + |b|
  {
    if |a| == 0 || |b| == 0 {
      // the first task of a non-empty list would be missing from the other
      FirstIsKept(a);
      FirstIsKept(b);
    } else {
      var da, db := a[0].dueDate, b[0].dueDate;
      assert a == [a[0]] + a[1..] && b == [b[0]] + b[1..];
      FilterCons(a[0], a[1..], DueOn(da));
      FilterCons(b[0], b[1..], DueOn(db));
      assert DueOn(da)(a[0]) && DueOn(db)(b[0]);
      assert Filter(a, DueOn(da)) == [a[0]] + Filter(a[1..], DueOn(da));
      assert Filter(b, DueOn(db)) == [b[0]] + Filter(b[1..], DueOn(db));
      assert db <= da by {
        assert a[0] in Filter(a, DueOn(da));
        assert Filter(a, DueOn(da)) == Filter(b, DueOn(da));
        FilterHas(b, DueOn(da), a[0]);
        SortedHeadFirst(b, a[0]);
      }
      assert da <= db by {
        assert b[0] in Filter(b, DueOn(db));
        assert Filter(a, DueOn(db)) == Filter(b, DueOn(db));
        FilterHas(a, DueOn(db), b[0]);
        SortedHeadFirst(a, b[0]);
      }
      assert a[0] == b[0] by {
        assert Filter(a, DueOn(da)) == Filter(b, DueOn(da));
        assert Filter(a, DueOn(da))[0] == a[0];
      }
      forall d ensures Filter(a[1..], DueOn(d)) == Filter(b[1..], DueOn(d)) {
        FilterSameHead(a, b, DueOn(d));
      }
      assert SortedByDue(a[1..]) && SortedByDue(b[1..]);
      StableSortUnique(a[1..], b[1..]);
    }
  }

  // ---------------------------------------------------------------------
  // The derived view and the local delete

  /** `filteredTasks`: the tasks passing both tests, sorted by due date. */
  function FilteredTasks(tasks: seq<Task>, f: TaskFilter): (r: seq<Task>)
    ensures SortedByDue(r)
    ensures multiset(r) == multiset(Filter(tasks, Matches(f)))
    ensures forall t :: t in r <==> t in tasks && StatusPasses(f.status, t) && PriorityPasses(f.priority, t)
  {
    var kept := Filter(tasks, Matches(f));
    var r := SortByDueDate(kept);
    assert forall t :: t in r <==> t in tasks && StatusPasses(f.status, t) && PriorityPasses(f.priority, t) by {
      forall t ensures t in r <==> t in tasks && StatusPasses(f.status, t) && PriorityPasses(f.priority, t) {
        FilterHas(tasks, Matches(f), t);
        assert t in r <==> t in multiset(r);
        assert t in kept <==> t in multiset(kept);
      }
    }
    r
  }

  /** Stability of the view: tasks with equal due dates keep the relative
      order they have in `tasks`. */
  lemma ViewIsStable(tasks: seq<Task>, f: TaskFilter, d: int)
    ensures Filter(FilteredTasks(tasks, f), DueOn(d)) == Filter(Filter(tasks, Matches(f)), DueOn(d))
  {
    SortIsStable(Filter(tasks, Matches(f)), d);
  }

  /** However the engine sorts, a stable sort of the kept tasks is the view. */
  lemma ViewIsTheStableSort(tasks: seq<Task>, f: TaskFilter, v: seq<Task>)
    requires SortedByDue(v)
    requires forall d :: Filter(v, DueOn(d)) == Filter(Filter(tasks, Matches(f)), DueOn(d))
    ensures v == FilteredTasks(tasks, f)
  {
    forall d ensures Filter(v, DueOn(d)) == Filter(FilteredTasks(tasks, f), DueOn(d)) {
      ViewIsStable(tasks, f, d);
    }
    StableSortUnique(v, FilteredTasks(tasks, f));
  }

  /** With the initial filter the view is a reordering of the whole list. */
  lemma ShowAllIsPermutation(tasks: seq<Task>)
    ensures multiset(FilteredTasks(tasks, ShowAll)) == multiset(tasks)
  {
    FilterKeepsAll(tasks, Matches(ShowAll));
  }

  /** `tasks.filter(task => task.id !== id)`. */
  function RemoveTask(tasks: seq<Task>, id: string): (r: seq<Task>)
    ensures forall t :: t in r <==> t in tasks && t.id != id
    ensures multiset(r) + multiset(Filter(tasks, HasId(id))) == multiset(tasks)
  {
    var r := Filter(tasks, OtherId(id));
    var gone := Filter(tasks, HasId(id));
    assert forall t :: t in r <==> t in tasks && t.id != id by {
      forall t ensures t in r <==> t in tasks && t.id != id {
        FilterHas(tasks, OtherId(id), t);
      }
    }
    assert multiset(r) + multiset(gone) == multiset(tasks) by {
      forall x ensures (multiset(r) + multiset(gone))[x] == multiset(tasks)[x] {
        FilterCount(tasks, OtherId(id), x);
        FilterCount(tasks, HasId(id), x);
      }
    }
    r
  }

  /** Deleting an id no task carries leaves the list as it was. */
  lemma RemoveUnknownId(tasks: seq<Task>, id: string)
    requires forall t :: t in tasks ==> t.id != id
    ensures RemoveTask(tasks, id) == tasks
  {
    FilterKeepsAll(tasks, OtherId(id));
  }

  /** Deleting the same id twice removes nothing more. */
  lemma RemoveTwice(tasks: seq<Task>, id: string)
    ensures RemoveTask(RemoveTask(tasks, id), id) == RemoveTask(tasks, id)
  {
    RemoveUnknownId(RemoveTask(tasks, id), id);
  }

  /** Deletion keeps the order of the survivors: removing from a concatenation
      is removing from each part. */
  lemma RemoveKeepsOrder(a: seq<Task>, b: seq<Task>, id: string)
    ensures RemoveTask(a + b, id) == RemoveTask(a, id) + RemoveTask(b, id)
  {
    FilterAppend(a, b, OtherId(id));
  }
}
