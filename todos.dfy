/**
 The values behind the to-do list: a task, the pure operations that derive a
 new task list from an old one (remove, toggle), and the summary counts.
 */
module TodoModel {
  import opened TextOps

  datatype Option<T> = None | Some(value: T)

  /** Task ids are compared only for equality; any countable type serves. */
  type Id = nat

  datatype Todo = Todo(id: Id, text: string, category: string, isCompleted: bool)

  /** The category filter value that shows every category. */
  const ALL_CATEGORIES: string := "All"
  /** The sort direction values set by the two sort buttons. */
  const ASCENDING: string := "Asc"
  const DESCENDING: string := "Desc"

  /** The ids present in a task list. */
  function Ids(s: seq<Todo>): (r: set<Id>)
    ensures forall t :: t in s ==> t.id in r
    ensures forall id :: id in r ==> exists t :: t in s && t.id == id
  {
    set t | t in s :: t.id
  }

  /** No two tasks of the list share an id. */
  predicate UniqueIds(s: seq<Todo>)
  {
    forall i, j :: 0 <= i < j < |s| ==> s[i].id != s[j].id
  }

  // ---------------------------------------------------------------------------
  // Array.prototype.filter
  // ---------------------------------------------------------------------------

  /** The elements of `s` that satisfy `p`, in their order in `s` (FilterAppend, FilterCount). */
  function Filter<T>(s: seq<T>, p: T -> bool): (r: seq<T>)
    ensures |r| <= |s|
  {
    if s == [] then []
    else (if p(s[0]) then [s[0]] else []) + Filter(s[1..], p)
  }

  /** Filtering keeps every occurrence of an element that passes and none of one that fails. */
  lemma {:induction false} FilterCount<T>(s: seq<T>, p: T -> bool)
    ensures forall x :: multiset(Filter(s, p))[x] == if p(x) then multiset(s)[x] else 0
    ensures forall x :: x in Filter(s, p) <==> x in s && p(x)
  {
    if s != [] {
      FilterCount(s[1..], p);
      assert s == [s[0]] + s[1..];
    }
  }

  /** Filtering distributes over concatenation, so it keeps the relative order of what it keeps. */
  lemma {:induction false} FilterAppend<T>(a: seq<T>, b: seq<T>, p: T -> bool)
    ensures Filter(a + b, p) == Filter(a, p) + Filter(b, p)
  {
    if a == [] {
      assert a + b == b;
    } else {
      var head := if p(a[0]) then [a[0]] else [];
      assert (a + b)[0] == a[0];
      assert (a + b)[1..] == a[1..] + b;
      FilterAppend(a[1..], b, p);
      assert Filter(a + b, p) == head + (Filter(a[1..], p) + Filter(b, p));
      assert Filter(a, p) == head + Filter(a[1..], p);
    }
  }

  /** Filtering keeps everything exactly when every element passes. */
  lemma {:induction false} FilterKeepsAll<T>(s: seq<T>, p: T -> bool)
    ensures Filter(s, p) == s <==> forall x :: x in s ==> p(x)
  {
    if s != [] {
      FilterKeepsAll(s[1..], p);
      if !p(s[0]) {
        assert |Filter(s, p)| < |s|;
      }
    }
  }

  /** Filtering a list with unique ids leaves a list with unique ids. */
  lemma {:induction false} FilterUniqueIds(s: seq<Todo>, p: Todo -> bool)
    requires UniqueIds(s)
    ensures UniqueIds(Filter(s, p))
  {
    if s != [] {
      FilterUniqueIds(s[1..], p);
      var rest := Filter(s[1..], p);
      FilterCount(s[1..], p);
      forall t | t in rest
        ensures t.id != s[0].id
      {
        var k :| 0 <= k < |s[1..]| && s[1..][k] == t;
        assert s[k + 1] == t;
      }
    }
  }

  // ---------------------------------------------------------------------------
  // removeTodo and toggleComplete
  // ---------------------------------------------------------------------------

  /**
   The list `removeTodo(id)` leaves: every task whose id differs from `id`,
   in the old relative order (WithoutIdAppend); the list itself when no task
   carries `id`.
   */
  function WithoutId(s: seq<Todo>, id: Id): (r: seq<Todo>)
    ensures forall t :: t in r <==> t in s && t.id != id
    ensures id !in Ids(s) <==> r == s
  {
    var keep := (t: Todo) => t.id != id;
    FilterKeepsAll(s, keep);
    FilterCount(s, keep);
    Filter(s, keep)
  }

  /** Removal works piece by piece, so the tasks it keeps stay in their old relative order. */
  lemma WithoutIdAppend(a: seq<Todo>, b: seq<Todo>, id: Id)
    ensures WithoutId(a + b, id) == WithoutId(a, id) + WithoutId(b, id)
  {
    FilterAppend(a, b, (t: Todo) => t.id != id);
  }

  /** Removing tasks keeps the remaining ids unique. */
  lemma WithoutIdUniqueIds(s: seq<Todo>, id: Id)
    requires UniqueIds(s)
    ensures UniqueIds(WithoutId(s, id))
  {
    FilterUniqueIds(s, (t: Todo) => t.id != id);
  }

  /** With unique ids, removing a present id drops exactly one task. */
  lemma {:induction false} WithoutIdLength(s: seq<Todo>, id: Id)
    requires UniqueIds(s)
    ensures |WithoutId(s, id)| == if id in Ids(s) then |s| - 1 else |s|
  {
    if s != [] {
      assert UniqueIds(s[1..]);
      WithoutIdLength(s[1..], id);
      if s[0].id == id {
        assert id !in Ids(s[1..]);
      } else {
        assert id in Ids(s) <==> id in Ids(s[1..]);
      }
    }
  }

  /** The task with its completion flag flipped. */
  function Flipped(t: Todo): Todo
  {
    t.(isCompleted := !t.isCompleted)
  }

  /**
   The list `toggleComplete(id)` leaves: same length, order, ids, texts and
   categories; the completion flag flips on exactly the tasks whose id is `id`.
   */
  function Toggled(s: seq<Todo>, id: Id): (r: seq<Todo>)
    ensures |r| == |s|
    ensures forall i :: 0 <= i < |s| ==>
      r[i].id == s[i].id && r[i].text == s[i].text && r[i].category == s[i].category
    ensures forall i :: 0 <= i < |s| ==> (r[i].isCompleted != s[i].isCompleted <==> s[i].id == id)
  {
    seq(|s|, i requires 0 <= i < |s| => if s[i].id == id then Flipped(s[i]) else s[i])
  }

  /** Toggling the same id twice restores the list. */
  lemma ToggleTwice(s: seq<Todo>, id: Id)
    ensures Toggled(Toggled(s, id), id) == s
  {
    var twice := Toggled(Toggled(s, id), id);
    forall i | 0 <= i < |s|
      ensures twice[i] == s[i]
    {
    }
  }

  /** Toggling an id that no task carries changes nothing. */
  lemma ToggleAbsent(s: seq<Todo>, id: Id)
    requires id !in Ids(s)
    ensures Toggled(s, id) == s
  {
    forall i | 0 <= i < |s|
      ensures Toggled(s, id)[i] == s[i]
    {
      assert s[i] in s;
    }
  }

  /** Toggling keeps the ids, so it keeps them unique. */
  lemma ToggleUniqueIds(s: seq<Todo>, id: Id)
    requires UniqueIds(s)
    ensures UniqueIds(Toggled(s, id))
  {
  }

  // ---------------------------------------------------------------------------
  // updateStats
  // ---------------------------------------------------------------------------

  datatype Summary = Summary(total: nat, completed: nat, pending: nat)

  function IsDone(t: Todo): bool
  {
    t.isCompleted
  }

  /** Every element passes the filter exactly when none is filtered out. */
  lemma {:induction false} FilterLength<T>(s: seq<T>, p: T -> bool)
    ensures |Filter(s, p)| == |s| <==> forall x :: x in s ==> p(x)
    ensures |Filter(s, p)| == 0 <==> forall x :: x in s ==> !p(x)
  {
    if s != [] {
      FilterLength(s[1..], p);
    }
  }

  /**
   The counts shown under the list: `total` is the number of tasks,
   `completed` those marked done, `pending` the rest.
   */
  function Stats(s: seq<Todo>): (r: Summary)
    ensures r.total == |s| && r.completed + r.pending == r.total
  {
    var completed := |Filter(s, IsDone)|;
    Summary(|s|, completed, |s| - completed)
  }

  /** Nothing is pending exactly when every task is done; nothing is done exactly when every task is pending. */
  lemma StatsExtremes(s: seq<Todo>)
    ensures Stats(s).pending == 0 <==> forall t :: t in s ==> t.isCompleted
    ensures Stats(s).completed == 0 <==> forall t :: t in s ==> !t.isCompleted
  {
    FilterLength(s, IsDone);
  }

  /** Adding a task adds one pending task. */
  lemma StatsAfterAdd(s: seq<Todo>, id: Id, text: string, category: string)
    ensures var before, after := Stats(s), Stats([Todo(id, text, category, false)] + s);
      after == Summary(before.total + 1, before.completed, before.pending + 1)
  {
    assert ([Todo(id, text, category, false)] + s)[1..] == s;
  }

  /** The counts of a non-empty list, from its head and the counts of its tail. */
  lemma StatsHead(s: seq<Todo>)
    requires s != []
    ensures Stats(s).total == Stats(s[1..]).total + 1
    ensures Stats(s).completed == Stats(s[1..]).completed + if s[0].isCompleted then 1 else 0
  {
  }

  /** Toggling a non-empty list toggles its head and its tail separately. */
  lemma ToggledHead(s: seq<Todo>, id: Id)
    requires s != []
    ensures Toggled(s, id)[0] == if s[0].id == id then Flipped(s[0]) else s[0]
    ensures Toggled(s, id)[1..] == Toggled(s[1..], id)
  {
  }

  /** With unique ids, toggling a present task moves it between the completed and the pending count. */
  lemma {:induction false} StatsAfterToggle(s: seq<Todo>, k: nat)
    requires UniqueIds(s) && k < |s|
    ensures var before, after := Stats(s), Stats(Toggled(s, s[k].id));
      after.total == before.total &&
      if s[k].isCompleted then after.completed + 1 == before.completed
      else after.completed == before.completed + 1
  {
    var id := s[k].id;
    ToggledHead(s, id);
    StatsHead(s);
    StatsHead(Toggled(s, id));
    if k == 0 {
      assert id !in Ids(s[1..]);
      ToggleAbsent(s[1..], id);
    } else {
      assert s[1..][k - 1] == s[k];
      StatsAfterToggle(s[1..], k - 1);
    }
  }

  /** Removing from a non-empty list removes from its head and its tail separately. */
  lemma WithoutIdHead(s: seq<Todo>, id: Id)
    requires s != []
    ensures s[0].id == id ==> WithoutId(s, id) == WithoutId(s[1..], id)
    ensures s[0].id != id ==> WithoutId(s, id) == [s[0]] + WithoutId(s[1..], id)
  {
  }

  /** The counts of a list with one more task in front. */
  lemma StatsCons(x: Todo, s: seq<Todo>)
    ensures Stats([x] + s).total == Stats(s).total + 1
    ensures Stats([x] + s).completed == Stats(s).completed + if x.isCompleted then 1 else 0
  {
    assert ([x] + s)[1..] == s;
  }

  /** With unique ids, removing the id of the first task leaves the rest of the list. */
  lemma WithoutFirstId(s: seq<Todo>)
    requires UniqueIds(s) && s != []
    ensures WithoutId(s, s[0].id) == s[1..]
  {
    WithoutIdHead(s, s[0].id);
    assert s[0].id !in Ids(s[1..]);
  }

  /** Removing an id the first task does not carry keeps that task in front of the rest. */
  lemma StatsWithoutLaterId(s: seq<Todo>, id: Id)
    requires s != [] && s[0].id != id
    ensures Stats(WithoutId(s, id)).total == Stats(WithoutId(s[1..], id)).total + 1
    ensures Stats(WithoutId(s, id)).completed
         == Stats(WithoutId(s[1..], id)).completed + if s[0].isCompleted then 1 else 0
  {
    WithoutIdHead(s, id);
    StatsCons(s[0], WithoutId(s[1..], id));
  }

  /** With unique ids, removing a present task takes it out of the total and out of its own count. */
  lemma {:induction false} StatsAfterRemove(s: seq<Todo>, k: nat)
    requires UniqueIds(s) && k < |s|
    ensures var before, after := Stats(s), Stats(WithoutId(s, s[k].id));
      after.total + 1 == before.total &&
      if s[k].isCompleted then after.completed + 1 == before.completed
      else after.completed == before.completed
  {
    StatsHead(s);
    if k == 0 {
      WithoutFirstId(s);
    } else {
      assert s[1..][k - 1] == s[k];
      StatsAfterRemove(s[1..], k - 1);
      StatsWithoutLaterId(s, s[k].id);
    }
  }
}
