/**
 Worked cases of the page's behaviour, derived from the general contracts:
 the rejected add-form inputs, a case-insensitive search, the two sort
 directions, and a client of the store that adds, toggles and removes.
 */
module TodoExamples {
  import opened TextOps
  import opened TodoModel
  import opened TodoView
  import opened TodoApp

  /** An empty or blank title, or no category, is rejected by the submit handler. */
  lemma BlankInputRejected()
    ensures AcceptedTitle("", "work").None?
    ensures AcceptedTitle(" \t ", "work").None?
    ensures AcceptedTitle("buy milk", "").None?
  {
    var blank := " \t ";
    assert forall k :: 0 <= k < |blank| ==> IsSpace(blank[k]);
  }

  /** "MILK" finds "Buy milk" and not "Call mom". */
lemma SearchIgnoresCase()
    ensures FilteredTodos([Todo(1, "Buy milk", "personal", false), Todo(2, "Call mom", "work", false)],
                          "MILK", ALL_CATEGORIES, ASCENDING)
         == [Todo(1, "Buy milk", "personal", false)]
  {
    var milk, mom := Todo(1, "Buy milk", "personal", false), Todo(2, "Call mom", "work", false);
    var r := FilteredTodos([milk, mom], "MILK", ALL_CATEGORIES, ASCENDING);
    MilkNotMom();
    assert multiset(r) == multiset{milk};
    assert |r| == 1;
  }

  /** Lower-cased, "Buy milk" contains "milk" and "Call mom" does not. */
  lemma MilkNotMom()
    ensures MatchesSearch(Todo(1, "Buy milk", "personal", false), "MILK")
    ensures !MatchesSearch(Todo(2, "Call mom", "work", false), "MILK")
  {
    assert Lower("MILK") == "milk";
    assert Lower("Buy milk") == "buy milk";
    assert Lower("Call mom") == "call mom";
    assert OccursAt("buy milk", "milk", 4);
    MomHasNoMilk();
  }

  lemma MomHasNoMilk()
    ensures !Contains("call mom", "milk")
  {
    var s := "call mom";
    assert s[0] != 'm' && s[1] != 'm' && s[2] != 'm' && s[3] != 'm' && s[4] != 'm';
    NoWindowSpells(s, "milk");
  }

  /** No window of `s` spells `sub` when `s` has no copy of `sub`'s first character early enough. */
  lemma NoWindowSpells(s: string, sub: string)
    requires sub != [] && forall i :: 0 <= i <= |s| - |sub| ==> s[i] != sub[0]
    ensures forall i :: !OccursAt(s, sub, i)
  {
    forall i | 0 <= i <= |s| - |sub|
      ensures !OccursAt(s, sub, i)
    {
      assert s[i..i + |sub|][0] != sub[0];
    }
  }

  /** "Apple task" comes first ascending and last descending. */
  lemma SortDirections()
    ensures FilteredTodos([Todo(1, "Banana task", "work", false), Todo(2, "Apple task", "work", false)],
                          "", ALL_CATEGORIES, ASCENDING)
         == [Todo(2, "Apple task", "work", false), Todo(1, "Banana task", "work", false)]
    ensures FilteredTodos([Todo(1, "Banana task", "work", false), Todo(2, "Apple task", "work", false)],
                          "", ALL_CATEGORIES, DESCENDING)
         == [Todo(1, "Banana task", "work", false), Todo(2, "Apple task", "work", false)]
  {
    var banana, apple := Todo(1, "Banana task", "work", false), Todo(2, "Apple task", "work", false);
    assert LocaleCompare(apple.text, banana.text) == -1 by {
      assert Lower(apple.text)[0] == 'a' && Lower(banana.text)[0] == 'b';
    }
    LocaleCompareTotalPreorder(apple.text, banana.text, apple.text);
    ShowAllByDefault([banana, apple], ASCENDING);
    ShowAllByDefault([banana, apple], DESCENDING);
    var up := FilteredTodos([banana, apple], "", ALL_CATEGORIES, ASCENDING);
    var down := FilteredTodos([banana, apple], "", ALL_CATEGORIES, DESCENDING);
    TwoOfAKind(up, apple, banana);
    TwoOfAKind(down, banana, apple);
  }

  /** A list holding `x` and `y` once each is `[x, y]` or `[y, x]`. */
  lemma TwoOfAKind(s: seq<Todo>, x: Todo, y: Todo)
    requires x != y && multiset(s) == multiset{x, y}
    ensures s == [x, y] || s == [y, x]
  {
    assert |s| == 2;
    assert s[0] in multiset(s) && s[1] in multiset(s);
    assert s == [s[0], s[1]];
  }

  /** A session on the store: two adds land newest first, a blank submit is ignored, toggle and remove do their work. */
  method Session()
  {
    var store := new TodoStore();
    AddTwoAndABlank(store);
    ToggleAndRemove(store);
  }

  /** Two submits of already-trimmed titles, then one with an empty title. */
  method AddTwoAndABlank(store: TodoStore)
    requires store.Valid() && store.todos == SampleTodos()
    modifies store`todos
    ensures store.Valid()
    ensures store.todos == [Todo(6, "Call mom", "work", false), Todo(5, "Buy milk", "personal", false)] + SampleTodos()
  {
    FreshAbove(store.todos, 5);
    SubmitTrimmed(store, "Buy milk", "personal", 5);
    FreshAbove(store.todos, 6);
    SubmitTrimmed(store, "Call mom", "work", 6);
    SubmitBlank(store, 7);
  }

  /** Submitting a title with no white space at either end under a named category adds it as it is. */
  method SubmitTrimmed(store: TodoStore, title: string, category: string, id: Id)
    requires store.Valid() && id !in Ids(store.todos)
    requires title != [] && !IsSpace(title[0]) && !IsSpace(title[|title| - 1]) && category != ""
    modifies store`todos
    ensures store.Valid()
    ensures store.todos == [Todo(id, title, category, false)] + old(store.todos)
  {
    TrimKeepsTrimmed(title);
    store.SubmitForm(title, category, id);
  }

  /** Submitting an empty title changes nothing. */
  method SubmitBlank(store: TodoStore, id: Id)
    requires store.Valid() && id !in Ids(store.todos)
    modifies store`todos
    ensures store.Valid()
    ensures store.todos == old(store.todos)
  {
    store.SubmitForm("", "work", id);
  }

  /** An id above every stored id is fresh. */
  lemma FreshAbove(s: seq<Todo>, id: Id)
    requires forall k :: 0 <= k < |s| ==> s[k].id < id
    ensures id !in Ids(s)
  {
  }

  /** Toggling task 5 twice restores it; removing an absent id changes nothing; removing 5 drops one task. */
  method ToggleAndRemove(store: TodoStore)
    requires store.Valid()
    requires store.todos == [Todo(6, "Call mom", "work", false), Todo(5, "Buy milk", "personal", false)] + SampleTodos()
    modifies store`todos
  {
    ghost var added := store.todos;
    store.ToggleComplete(5);
    assert store.todos[1].isCompleted;
    store.ToggleComplete(5);
    ToggleTwice(added, 5);
    assert store.todos == added;

    assert 99 !in Ids(added);
    store.RemoveTodo(99);
    assert store.todos == added;
    store.RemoveTodo(5);
    WithoutIdLength(added, 5);
    assert |store.todos| == 5;
  }
}
