/**
 What the page shows: the filtered and sorted task list (`getFilteredTodos`),
 the choice between the list and one of the two empty-state hints
 (`renderTodos`) and the icon beside each category (`getCategoryIcon`).
 */
module TodoView {
  import opened TextOps
  import opened TodoModel

  // ---------------------------------------------------------------------------
  // The sort step: Array.prototype.sort with the direction-aware comparator
  // ---------------------------------------------------------------------------

  /** The comparator handed to `sort`: `localeCompare` of the texts, negated unless the direction is "Asc". */
  function Comparator(direction: string, a: Todo, b: Todo): int
  {
    var c := LocaleCompare(a.text, b.text);
    if direction == ASCENDING then c else -c
  }

  /** Under either direction, "not after" is total and transitive. */
  lemma ComparatorTotalPreorder(direction: string, a: Todo, b: Todo, c: Todo)
    ensures Comparator(direction, a, b) <= 0 || Comparator(direction, b, a) <= 0
    ensures Comparator(direction, a, b) <= 0 && Comparator(direction, b, c) <= 0 ==>
            Comparator(direction, a, c) <= 0
  {
    LocaleCompareTotalPreorder(a.text, b.text, c.text);
    LocaleCompareTotalPreorder(c.text, b.text, a.text);
    LocaleCompareTotalPreorder(b.text, a.text, c.text);
  }

  /** No element is placed after one that the comparator puts behind it. */
  ghost predicate SortedFor(direction: string, s: seq<Todo>)
  {
    forall i, j :: 0 <= i < j < |s| ==> Comparator(direction, s[i], s[j]) <= 0
  }

  /** Places `x` in front of the first element it does not sort after. */
  function Insert(direction: string, x: Todo, s: seq<Todo>): (r: seq<Todo>)
    ensures multiset(r) == multiset{x} + multiset(s)
  {
    if s == [] || Comparator(direction, x, s[0]) <= 0 then [x] + s
    else
      assert s == [s[0]] + s[1..];
      [s[0]] + Insert(direction, x, s[1..])
  }

  /** Inserting into a sorted list leaves it sorted. */
  lemma {:induction false} InsertSorted(direction: string, x: Todo, s: seq<Todo>)
    requires SortedFor(direction, s)
    ensures SortedFor(direction, Insert(direction, x, s))
  {
    var r := Insert(direction, x, s);
    if s == [] || Comparator(direction, x, s[0]) <= 0 {
      forall j | 0 < j < |r|
        ensures Comparator(direction, x, r[j]) <= 0
      {
        assert r[j] == s[j - 1];
        ComparatorTotalPreorder(direction, x, s[0], s[j - 1]);
      }
    } else {
      var rest := Insert(direction, x, s[1..]);
      InsertSorted(direction, x, s[1..]);
      assert r == [s[0]] + rest;
      forall j | 0 <= j < |rest|
        ensures Comparator(direction, s[0], rest[j]) <= 0
      {
        assert rest[j] in multiset(rest);
        ComparatorTotalPreorder(direction, x, s[0], x);
        if rest[j] != x {
          assert rest[j] in multiset(s[1..]);
          var k :| 0 <= k < |s[1..]| && s[1..][k] == rest[j];
          assert s[k + 1] == rest[j];
        }
      }
    }
  }

  /**
   The stable sort `todos.sort(comparator)` performs: a permutation of `s`
   in which no element comes after one the comparator puts behind it.
   */
  function SortTodos(direction: string, s: seq<Todo>): (r: seq<Todo>)
    ensures multiset(r) == multiset(s)
    ensures SortedFor(direction, r)
  {
    if s == [] then []
    else
      var rest := SortTodos(direction, s[1..]);
      InsertSorted(direction, s[0], rest);
      assert s == [s[0]] + s[1..];
      Insert(direction, s[0], rest)
  }

  /** The tasks whose text equals that of `c` up to letter case: those the comparator cannot tell from `c`. */
  function SameText(c: Todo): Todo -> bool
  {
    (t: Todo) => Lower(t.text) == Lower(c.text)
  }

  /** Insertion moves `x` only past elements whose text differs from its own. */
  lemma {:induction false} InsertKeepsTies(direction: string, x: Todo, s: seq<Todo>, c: Todo)
    ensures Filter(Insert(direction, x, s), SameText(c)) == Filter([x] + s, SameText(c))
  {
    if s != [] && Comparator(direction, x, s[0]) > 0 {
      var rest := Insert(direction, x, s[1..]);
      InsertKeepsTies(direction, x, s[1..], c);
      assert ([s[0]] + rest)[1..] == rest;
      assert ([x] + s[1..])[1..] == s[1..];
      assert ([x] + s)[1..] == s;
      assert s == [s[0]] + s[1..];
      assert !(SameText(c)(x) && SameText(c)(s[0]));
    }
  }

  /**
   The sort is stable: the tasks of one text (up to letter case) leave it in
   the order they entered it.
   */
  lemma {:induction false} SortStable(direction: string, s: seq<Todo>, c: Todo)
    ensures Filter(SortTodos(direction, s), SameText(c)) == Filter(s, SameText(c))
  {
    if s != [] {
      var rest := SortTodos(direction, s[1..]);
      SortStable(direction, s[1..], c);
      InsertKeepsTies(direction, s[0], rest, c);
      assert ([s[0]] + rest)[1..] == rest;
    }
  }

  // ---------------------------------------------------------------------------
  // getFilteredTodos
  // ---------------------------------------------------------------------------

  /** The search box: the lower-cased text contains the lower-cased search term. */
  predicate MatchesSearch(t: Todo, searchTerm: string)
  {
    Contains(Lower(t.text), Lower(searchTerm))
  }

  /** The category select: "All", or the same category up to letter case. */
  predicate MatchesCategory(t: Todo, filterCategory: string)
  {
    filterCategory == ALL_CATEGORIES || Lower(t.category) == Lower(filterCategory)
  }

  /** A task survives both filters of the view. */
  predicate Visible(t: Todo, searchTerm: string, filterCategory: string)
  {
    MatchesSearch(t, searchTerm) && MatchesCategory(t, filterCategory)
  }

  /** The two `filter` steps of the view, one after the other. */
  function Matching(todos: seq<Todo>, searchTerm: string, filterCategory: string): (m: seq<Todo>)
    ensures |m| <= |todos|
    ensures forall t :: multiset(m)[t] == if Visible(t, searchTerm, filterCategory) then multiset(todos)[t] else 0
  {
    var bySearch := Filter(todos, (t: Todo) => MatchesSearch(t, searchTerm));
    FilterCount(todos, (t: Todo) => MatchesSearch(t, searchTerm));
    FilterCount(bySearch, (t: Todo) => MatchesCategory(t, filterCategory));
    Filter(bySearch, (t: Todo) => MatchesCategory(t, filterCategory))
  }

  /** The two filters work piece by piece, so the tasks they keep stay in their stored order. */
  lemma MatchingAppend(a: seq<Todo>, b: seq<Todo>, searchTerm: string, filterCategory: string)
    ensures Matching(a + b, searchTerm, filterCategory)
         == Matching(a, searchTerm, filterCategory) + Matching(b, searchTerm, filterCategory)
  {
    var bySearch := (t: Todo) => MatchesSearch(t, searchTerm);
    FilterAppend(a, b, bySearch);
    FilterAppend(Filter(a, bySearch), Filter(b, bySearch), (t: Todo) => MatchesCategory(t, filterCategory));
  }

  /** Ordered by text: ascending when the direction is "Asc", descending for any other value. */
  ghost predicate OrderedByText(sortDirection: string, s: seq<Todo>)
  {
    forall i, j :: 0 <= i < j < |s| ==>
      if sortDirection == ASCENDING then LocaleCompare(s[i].text, s[j].text) <= 0
      else LocaleCompare(s[i].text, s[j].text) >= 0
  }

  /** Sorted under the comparator means ordered by text in the chosen direction. */
  lemma SortedIsOrdered(sortDirection: string, s: seq<Todo>)
    requires SortedFor(sortDirection, s)
    ensures OrderedByText(sortDirection, s)
  {
    forall i, j | 0 <= i < j < |s|
      ensures if sortDirection == ASCENDING then LocaleCompare(s[i].text, s[j].text) <= 0
              else LocaleCompare(s[i].text, s[j].text) >= 0
    {
      assert Comparator(sortDirection, s[i], s[j]) <= 0;
    }
  }

  /**
   The list the page shows: the stored tasks that match the search term and
   the category filter, each as often as it is stored, ordered by text
   ascending when the direction is "Asc" and descending otherwise. The
   stored list is an argument and is left as it is.
   */
  function FilteredTodos(todos: seq<Todo>, searchTerm: string, filterCategory: string,
                         sortDirection: string): (r: seq<Todo>)
    ensures |r| <= |todos|
    ensures forall t :: t in r ==> MatchesSearch(t, searchTerm) && MatchesCategory(t, filterCategory)
    ensures forall t :: (multiset(r)[t] ==
      if Visible(t, searchTerm, filterCategory) then multiset(todos)[t] else 0)
    ensures OrderedByText(sortDirection, r)
  {
    var matching := Matching(todos, searchTerm, filterCategory);
    var r := SortTodos(sortDirection, matching);
    SortedIsOrdered(sortDirection, r);
    assert |r| == |multiset(r)| == |multiset(matching)| == |matching|;
    assert forall t :: t in r ==> multiset(r)[t] > 0;
    r
  }

  /**
   Tasks whose texts the comparator cannot tell apart appear in the view in
   the order the filters left them, which by MatchingAppend is their stored
   order (newest first).
   */
  lemma ViewKeepsStoredOrderOfTies(todos: seq<Todo>, searchTerm: string, filterCategory: string,
                                   sortDirection: string, c: Todo)
    ensures Filter(FilteredTodos(todos, searchTerm, filterCategory, sortDirection), SameText(c))
         == Filter(Matching(todos, searchTerm, filterCategory), SameText(c))
  {
    SortStable(sortDirection, Matching(todos, searchTerm, filterCategory), c);
  }

  /** With an empty search term and the "All" filter every stored task is shown. */
  lemma ShowAllByDefault(todos: seq<Todo>, sortDirection: string)
    ensures multiset(FilteredTodos(todos, "", ALL_CATEGORIES, sortDirection)) == multiset(todos)
  {
    forall t | t in todos
      ensures MatchesSearch(t, "")
    {
      ContainsEmpty(Lower(t.text));
    }
  }

  // ---------------------------------------------------------------------------
  // renderTodos: the empty-state branch
  // ---------------------------------------------------------------------------

  const NO_TASKS_HINT: string := "Add your first task to get started!"
  const NO_MATCHES_HINT: string := "Try adjusting your search or filter criteria."

  /** What `renderTodos` puts in the container: an empty-state hint or the task cards. */
  datatype Screen = EmptyState(hint: string) | TaskList(items: seq<Todo>)

  /**
   The "add your first task" hint appears exactly when there are no tasks at
   all; the "adjust your filter" hint exactly when there are tasks but none
   survives the filters; otherwise the filtered list is shown.
   */
  function Render(todos: seq<Todo>, searchTerm: string, filterCategory: string,
                  sortDirection: string): (r: Screen)
    ensures r == EmptyState(NO_TASKS_HINT) <==> todos == []
    ensures r == EmptyState(NO_MATCHES_HINT) <==>
      todos != [] && FilteredTodos(todos, searchTerm, filterCategory, sortDirection) == []
    ensures r.TaskList? ==>
      r.items == FilteredTodos(todos, searchTerm, filterCategory, sortDirection) && r.items != []
  {
    var shown := FilteredTodos(todos, searchTerm, filterCategory, sortDirection);
    if |shown| == 0 then
      EmptyState(if |todos| == 0 then NO_TASKS_HINT else NO_MATCHES_HINT)
    else
      TaskList(shown)
  }

  // ---------------------------------------------------------------------------
  // getCategoryIcon
  // ---------------------------------------------------------------------------

  const WORK_ICON: string := "\U{1F4BC}"
  const PERSONAL_ICON: string := "\U{1F3E0}"
  const STUDY_ICON: string := "\U{1F4DA}"
  const DEFAULT_ICON: string := "\U{1F4DD}"

  const CATEGORY_ICONS: map<string, string> :=
    map["work" := WORK_ICON, "personal" := PERSONAL_ICON, "study" := STUDY_ICON]

  /**
   The icon beside a category: the fixed icon of "work", "personal" and
   "study" (matched exactly, letter case included), the memo icon for every
   other category.
   */
  function CategoryIcon(category: string): (r: string)
    ensures category == "work" ==> r == WORK_ICON
    ensures category == "personal" ==> r == PERSONAL_ICON
    ensures category == "study" ==> r == STUDY_ICON
    ensures r == DEFAULT_ICON <==> category != "work" && category != "personal" && category != "study"
  {
    if category in CATEGORY_ICONS then CATEGORY_ICONS[category] else DEFAULT_ICON
  }
}
