# To-do list: task store and view pipeline

A model of the logic of a single-page to-do list (`todo/script.js`). The page
keeps an in-memory list of tasks, newest first. Each task has an id, a text, a
category and a completion flag. Tasks can be added from a form, removed, and
marked done or not done. The page shows a view of the list, filtered by a
search term and a category and sorted by text in either direction. Under the
list it shows the total, completed and pending counts. When the view is empty
it shows one of two hints.

The model has five modules, one per file:

- `TextOps` (`text.dfy`): concrete stand-ins for the JavaScript string
  built-ins the page uses. These are `toLowerCase` (`Lower`), `includes`
  (`Contains`), `trim` (`Trim`) and `localeCompare` (`LocaleCompare`). It also
  proves the properties the rest of the model relies on: `Contains` finds
  exactly the windows that spell the term, `Trim` removes exactly the white
  space at both ends, and `LocaleCompare` is a total preorder.
- `TodoModel` (`todos.dfy`): the `Todo` datatype and the pure list operations
  behind `removeTodo` (`WithoutId`, a `Filter`) and `toggleComplete`
  (`Toggled`). It also holds the counts of `updateStats` (`Stats`) and how each
  operation moves those counts.
- `TodoView` (`view.dfy`): `getFilteredTodos` as two filters and a stable sort
  (`Matching`, `SortTodos`, `FilteredTodos`), the empty-state choice of
  `renderTodos` (`Render`), and `getCategoryIcon` (`CategoryIcon`).
- `TodoApp` (`store.dfy`): the page state as a class, `TodoStore`. Its fields
  are the task list and the three view controls. The class keeps the invariant
  that ids are unique. Its methods are the handlers that change that state:
  `AddTodo`, `RemoveTodo`, `ToggleComplete`, the submit handler `SubmitForm`
  (checked by `AcceptedTitle`), the search box, the Escape key, the category
  select and the two sort buttons.
- `TodoExamples` (`examples.dfy`): worked cases derived from the general
  contracts. They cover rejected form inputs, a case-insensitive search, the
  two sort directions, and a client session on the store that adds, toggles
  and removes tasks.

The stored list is a field of type `seq<Todo>`. Each mutator states the new
list as a function of the old one. The view, the counts and the screen are
functions of the state, so computing them never changes the stored order.

Three details of the code shape the model:

- `removeTodo` drops every task carrying the id (todo/script.js:74).
- Any sort direction other than `"Asc"` sorts descending (todo/script.js:104).
- The choice between the two empty-state hints depends on `todos.length`
  (todo/script.js:128).

## Model

| member | source | states |
|---|---|---|
| TextOps.Lower | todo/script.js:96 | `toLowerCase` keeps the length and lower-cases each character; no upper-case ASCII letter survives |
| TextOps.LowerIdempotent | todo/script.js:96-100 | lower-casing an already lower-cased text changes nothing |
| TextOps.Contains | todo/script.js:96 | `includes` is true exactly when some window of the text spells the term |
| TextOps.ContainsEmpty | todo/script.js:30 | the initial empty search term is contained in every text |
| TextOps.Trim | todo/script.js:175 | `trim` returns the slice of the title with only white space before and after it; empty exactly when the title is all white space; otherwise it neither starts nor ends with white space |
| TextOps.TrimIdempotent | todo/script.js:175 | trimming a trimmed title changes nothing |
| TextOps.TrimKeepsTrimmed | todo/script.js:175 | a title that neither starts nor ends with white space is left as it is by `trim` |
| TextOps.LexCompare | todo/script.js:103 | code-point comparison returns -1, 0 or 1, and 0 exactly for equal strings |
| TextOps.LexCompareAntisymmetric | todo/script.js:103 | swapping the operands negates the comparison |
| TextOps.LexCompareTransitive | todo/script.js:103 | "not after" is transitive |
| TextOps.LocaleCompare | todo/script.js:103 | `localeCompare` returns -1, 0 or 1, and 0 exactly when the texts agree up to letter case |
| TextOps.LocaleCompareTotalPreorder | todo/script.js:103 | `localeCompare` is reflexive, antisymmetric in sign and transitive |
| TodoModel.Filter | todo/script.js:74 | `filter` never returns more elements than it was given |
| TodoModel.FilterCount | todo/script.js:74 | `filter` keeps every occurrence of a passing element and none of a failing one |
| TodoModel.FilterAppend | todo/script.js:74 | `filter` distributes over concatenation, so it keeps the relative order of what it keeps |
| TodoModel.FilterKeepsAll | todo/script.js:74 | `filter` returns its input exactly when every element passes |
| TodoModel.FilterLength | todo/script.js:111 | the filtered length equals the length exactly when all pass, and is 0 exactly when none pass |
| TodoModel.FilterUniqueIds | todo/script.js:74 | filtering a list with unique ids leaves unique ids |
| TodoModel.WithoutId | todo/script.js:73-74 | after `removeTodo(id)` a task is in the list exactly when it was there before and its id is not `id`; the list is unchanged exactly when no task has `id` |
| TodoModel.WithoutIdAppend | todo/script.js:73-74 | removal works piece by piece, so the tasks `removeTodo` keeps stay in their old relative order |
| TodoModel.WithoutIdUniqueIds | todo/script.js:73-74 | removal keeps ids unique |
| TodoModel.WithoutIdLength | todo/script.js:73-74 | with unique ids, removing a present id drops exactly one task, and removing an absent id drops none |
| TodoModel.Toggled | todo/script.js:81-86 | `toggleComplete(id)` keeps the length, order, ids, texts and categories, and flips the flag on exactly the tasks whose id is `id` |
| TodoModel.ToggleTwice | todo/script.js:81-86 | toggling the same id twice restores the list |
| TodoModel.ToggleAbsent | todo/script.js:81-86 | toggling an id no task has changes nothing |
| TodoModel.ToggleUniqueIds | todo/script.js:81-86 | toggling keeps ids unique |
| TodoModel.Stats | todo/script.js:110-112 | `total` is the list length and `completed + pending == total` (so `completed <= total`) |
| TodoModel.StatsExtremes | todo/script.js:110-112 | `pending` is 0 exactly when every task is done; `completed` is 0 exactly when none is |
| TodoModel.StatsAfterAdd | todo/script.js:58-66 | adding a task raises `total` and `pending` by one and leaves `completed` alone |
| TodoModel.StatsAfterToggle | todo/script.js:81-86 | with unique ids, toggling a present task keeps `total` and moves `completed` by one, down if the task was done and up if not |
| TodoModel.StatsAfterRemove | todo/script.js:73-74 | with unique ids, removing a present task lowers `total` by one, and lowers `completed` by one exactly when that task was done |
| TodoView.ComparatorTotalPreorder | todo/script.js:102-105 | the sort comparator is total and transitive under either direction |
| TodoView.Insert | todo/script.js:102-105 | one insertion step of the sort adds exactly the inserted task to the multiset of tasks |
| TodoView.InsertSorted | todo/script.js:102-105 | inserting into a sorted list leaves it sorted under the comparator |
| TodoView.SortTodos | todo/script.js:102-105 | the sort returns a permutation of its input that is sorted under the comparator |
| TodoView.InsertKeepsTies | todo/script.js:102-105 | an insertion step moves a task only past tasks whose text differs from its own |
| TodoView.SortStable | todo/script.js:102-105 | the sort is stable: tasks with the same text (up to case) leave it in the order they entered |
| TodoView.Matching | todo/script.js:94-101 | the two filters keep each stored task as often as it is stored when its lower-cased text contains the lower-cased term and the filter is "All" or names its category up to case; they keep no other task |
| TodoView.MatchingAppend | todo/script.js:94-101 | the two filters work piece by piece, so the tasks they keep stay in their stored (newest first) order |
| TodoView.SortedIsOrdered | todo/script.js:102-105 | sorted under the comparator means non-decreasing by `localeCompare` for "Asc" and non-increasing for any other direction |
| TodoView.FilteredTodos | todo/script.js:93-106 | every shown task matches the search term and the category filter; the view is a permutation of the stored tasks that match both; it is ordered ascending by text for "Asc" and descending otherwise; it is never longer than the list |
| TodoView.ViewKeepsStoredOrderOfTies | todo/script.js:93-106 | tasks with the same text (up to case) appear in the view in the order the two filters leave them, which `MatchingAppend` shows is their stored (newest first) order |
| TodoView.ShowAllByDefault | todo/script.js:30-31 | with the initial empty search term and the "All" filter, the view is a permutation of the whole list |
| TodoView.Render | todo/script.js:120-135 | "Add your first task" is shown exactly when the list is empty; "Try adjusting" is shown exactly when the list is not empty but the view is; otherwise the non-empty view is listed |
| TodoView.CategoryIcon | todo/script.js:162-169 | "work", "personal" and "study" get their fixed icons; the memo icon is returned exactly for every other category |
| TodoApp.SampleTodos | todo/script.js:2-27 | the four sample tasks have unique ids |
| TodoApp.AcceptedTitle | todo/script.js:175-178 | the submit handler accepts the form exactly when a category is selected and the title has a character that is not white space; the title it accepts is the trimmed title |
| TodoApp.TodoStore.constructor | todo/script.js:2-32 | the page starts with the sample tasks, an empty search term, the "All" filter and ascending order |
| TodoApp.TodoStore.AddTodo | todo/script.js:58-66 | `addTodo` puts a new, uncompleted task with the given text and category in front of the old tasks, in their old order, and keeps ids unique |
| TodoApp.TodoStore.RemoveTodo | todo/script.js:73-74 | `removeTodo` leaves `WithoutId` of the old list and keeps ids unique |
| TodoApp.TodoStore.ToggleComplete | todo/script.js:81-86 | `toggleComplete` leaves `Toggled` of the old list and keeps ids unique |
| TodoApp.TodoStore.SubmitForm | todo/script.js:172-180 | the submit handler leaves the list unchanged when the trimmed title or the category is empty; otherwise it adds the trimmed title in front |
| TodoApp.TodoStore.GetFilteredTodos | todo/script.js:93-106 | `getFilteredTodos` on the page state is `FilteredTodos` of the four fields: every shown task passes the current search term and category filter, and the list is ordered by text in the current direction |
| TodoApp.TodoStore.CurrentStats | todo/script.js:109-117 | the counts `updateStats` writes are `Stats` of the stored list: `total` is its length and `completed + pending == total` |
| TodoApp.TodoStore.CurrentScreen | todo/script.js:120-135 | `renderTodos` shows "Add your first task" exactly when the list is empty, "Try adjusting" exactly when the list is not empty but the current view is, and otherwise the current view |
| TodoApp.TodoStore.SetSearchTerm | todo/script.js:188-189 | typing in the search box sets the search term and nothing else |
| TodoApp.TodoStore.SetFilterCategory | todo/script.js:193-194 | the category select sets the filter and nothing else |
| TodoApp.TodoStore.SortAscending | todo/script.js:198-199 | the ascending button sets the direction to "Asc" and nothing else |
| TodoApp.TodoStore.SortDescending | todo/script.js:205-206 | the descending button sets the direction to "Desc" and nothing else |
| TodoApp.TodoStore.ClearSearch | todo/script.js:220-222 | the Escape key clears the search term and nothing else |
| TodoExamples.BlankInputRejected | todo/script.js:175-178 | an empty title, a title of only white space, and a missing category are each rejected |
| TodoExamples.SearchIgnoresCase | todo/script.js:94-101 | the term "MILK" shows "Buy milk" and hides "Call mom" |
| TodoExamples.SortDirections | todo/script.js:102-105 | "Apple task" is listed before "Banana task" ascending and after it descending |

## Left out

- TextOps.Lower: folds only the ASCII letters A-Z. Unicode case mapping is not modelled.
- TextOps.LocaleCompare: compares the lower-cased texts by code point. Locale collation is not modelled: accents, punctuation weights, and the tie-break that puts "a" before "A". Every property of the sort is proved only from the total-preorder laws of this function.
- TodoView.SortTodos: the engine's sorting algorithm is replaced by a stable insertion sort. Since ES2019 the language requires `Array.prototype.sort` to be stable. A stable sort with the same comparator gives the same result.
- TodoView.CategoryIcon: the lookup is a three-entry map. JavaScript's object-prototype keys such as `"toString"`, which the source's plain object would return as a function instead of an icon, are not modelled.
- `generateId` (todo/script.js:47-49) returns the clock plus a random fraction. The model takes the new id as a parameter (`freshId`) and requires that no stored task has it. Ids are `nat`, compared only for equality. Their round trip through the `onclick` attribute (todo/script.js:146, 152) is assumed exact.
- The source itself does not guarantee fresh ids. At today's clock values, `Date.now() + Math.random()` as a double keeps only about 12 bits of the fraction, so two adds in the same millisecond collide with probability about 1/4096. In the model, `UniqueIds` (and so `TodoStore.Valid`) holds only because of the `freshId` precondition of `AddTodo` and `SubmitForm`.
- `saveTodos` is an empty function, and the 30-second `setInterval` only logs (todo/script.js:52-55, 238-240). Neither changes state.
- DOM work is not modelled: element lookup, the `innerHTML` templates of the task cards, `classList` changes on the sort buttons, `focus()` calls, clearing the form inputs after an add, and the Ctrl/Cmd+Enter shortcut, which only moves focus (todo/script.js:35-45, 137-158, 183-185, 200-201, 207-208, 214-217). `Render` models only the choice between the task list and the two empty-state hints, and which tasks the list shows.
- Event-listener registration and the event objects (todo/script.js:172-225) are not modelled. Each handler is a method of `TodoStore` that takes the value the event carried.
- `initApp` (todo/script.js:228-232) only renders and focuses. Its state is the constructor's state.
