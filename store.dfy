/**
 The page's state and the handlers that change it: the task list with the
 add, remove and toggle operations, the validation of the add form, and the
 three view controls (search term, category filter, sort direction) set by
 the search box, the filter select, the two sort buttons and the Escape key.
 */
module TodoApp {
  import opened TextOps
  import opened TodoModel
  import opened TodoView

  /** The four tasks the page starts with. */
  function SampleTodos(): (r: seq<Todo>)
    ensures UniqueIds(r)
  {
    [ Todo(1, "Complete portfolio website development", "work", false),
      Todo(2, "Study advanced React concepts and hooks", "study", false),
      Todo(3, "Prepare for upcoming job interviews", "work", true),
      Todo(4, "Buy groceries and meal prep for the week", "personal", false) ]
  }

  /**
   The submit handler's check: the title it adds is the trimmed title, and
   it adds one only when that title has a character other than white space
   and a category is selected.
   */
  function AcceptedTitle(rawTitle: string, category: string): (r: Option<string>)
    ensures r.Some? <==> category != "" && exists k :: 0 <= k < |rawTitle| && !IsSpace(rawTitle[k])
    ensures r.Some? ==> r.value == Trim(rawTitle) && r.value != ""
  {
    var title := Trim(rawTitle);
    if title == "" || category == "" then None else Some(title)
  }

  class TodoStore {
    /** The stored tasks, newest first. */
    var todos: seq<Todo>
    var searchTerm: string
    var filterCategory: string
    var sortDirection: string

    /** The store's invariant: no two tasks share an id. */
    ghost predicate Valid()
      reads this`todos
    {
      UniqueIds(todos)
    }

    /** The page as it starts: the sample tasks, no search, every category, ascending. */
    constructor ()
      ensures Valid()
      ensures todos == SampleTodos()
      ensures searchTerm == "" && filterCategory == ALL_CATEGORIES && sortDirection == ASCENDING
    {
      todos := SampleTodos();
      searchTerm := "";
      filterCategory := ALL_CATEGORIES;
      sortDirection := ASCENDING;
    }

    /** `addTodo`: a new, open task with a fresh id goes in front of the old ones. */
    method AddTodo(id: Id, title: string, category: string)
      requires Valid() && id !in Ids(todos)
      modifies this`todos
      ensures Valid()
      ensures todos == [Todo(id, title, category, false)] + old(todos)
    {
      var newTodo := Todo(id, title, category, false);
      todos := [newTodo] + todos;
      forall j | 0 < j < |todos|
        ensures todos[j].id != id
      {
        assert todos[j] == old(todos)[j - 1];
      }
    }

    /** `removeTodo`: drops every task with the given id; nothing happens when there is none. */
    method RemoveTodo(id: Id)
      requires Valid()
      modifies this`todos
      ensures Valid()
      ensures todos == WithoutId(old(todos), id)
    {
      WithoutIdUniqueIds(todos, id);
      todos := WithoutId(todos, id);
    }

    /** `toggleComplete`: flips the completion flag of the task with the given id. */
    method ToggleComplete(id: Id)
      requires Valid()
      modifies this`todos
      ensures Valid()
      ensures todos == Toggled(old(todos), id)
    {
      ToggleUniqueIds(todos, id);
      todos := Toggled(todos, id);
    }

    /**
     The form's submit handler: adds the trimmed title under the selected
     category, or leaves the list as it is when either is empty. `freshId`
     stands for the value `generateId` would return.
     */
    method SubmitForm(rawTitle: string, category: string, freshId: Id)
      requires Valid() && freshId !in Ids(todos)
      modifies this`todos
      ensures Valid()
      ensures AcceptedTitle(rawTitle, category).None? ==> todos == old(todos)
      ensures AcceptedTitle(rawTitle, category).Some? ==>
        todos == [Todo(freshId, Trim(rawTitle), category, false)] + old(todos)
    {
      match AcceptedTitle(rawTitle, category) {
        case None =>
        case Some(title) => AddTodo(freshId, title, category);
      }
    }

    /** Typing in the search box. */
    method SetSearchTerm(term: string)
      modifies this`searchTerm
      ensures searchTerm == term
    {
      searchTerm := term;
    }

    /** The Escape key: clears the search term. */
    method ClearSearch()
      modifies this`searchTerm
      ensures searchTerm == ""
    {
      searchTerm := "";
    }

    /** Choosing a category in the filter select. */
    method SetFilterCategory(category: string)
      modifies this`filterCategory
      ensures filterCategory == category
    {
      filterCategory := category;
    }

    /** The ascending sort button. */
    method SortAscending()
      modifies this`sortDirection
      ensures sortDirection == ASCENDING
    {
      sortDirection := ASCENDING;
    }

    /** The descending sort button. */
    method SortDescending()
      modifies this`sortDirection
      ensures sortDirection == DESCENDING
    {
      sortDirection := DESCENDING;
    }

    /** What `getFilteredTodos` returns for the current state. */
    function GetFilteredTodos(): (r: seq<Todo>)
      reads this
      ensures r == FilteredTodos(todos, searchTerm, filterCategory, sortDirection)
      ensures forall t :: t in r ==> Visible(t, searchTerm, filterCategory)
      ensures OrderedByText(sortDirection, r)
    {
      FilteredTodos(todos, searchTerm, filterCategory, sortDirection)
    }

    /** The counts `updateStats` writes for the current state. */
    function CurrentStats(): (r: Summary)
      reads this`todos
      ensures r == Stats(todos)
      ensures r.total == |todos| && r.completed + r.pending == r.total
    {
      Stats(todos)
    }

    /** What `renderTodos` puts on the page for the current state. */
    function CurrentScreen(): (r: Screen)
      reads this
      ensures r == EmptyState(NO_TASKS_HINT) <==> todos == []
      ensures r == EmptyState(NO_MATCHES_HINT) <==> todos != [] && GetFilteredTodos() == []
      ensures r.TaskList? ==> r.items == GetFilteredTodos() && r.items != []
    {
      Render(todos, searchTerm, filterCategory, sortDirection)
    }
  }
}
