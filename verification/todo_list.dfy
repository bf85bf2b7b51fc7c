/**
 * The list view's filter: All, Active or Completed, applied to the store's
 * list without changing it.
 */
module TodoList {
  import Seqs
  import opened TodoSlice

  datatype Filter = All | Active | Completed

  /** The filter a fresh list view starts with. */
  const InitialFilter: Filter := All

  /** The view's filter callback: open records for Active, done ones for Completed, all otherwise. */
  function Shows(filter: Filter): (r: Todo -> bool)
    ensures forall t: Todo :: r(t) == match filter
      case All => true
      case Active => !t.completed
      case Completed => t.completed
  {
    (t: Todo) => if filter == Active then !t.completed else if filter == Completed then t.completed else true
  }

  /** The records the view lists: a subsequence of `todos` in their original order. */
  function FilteredTodos(todos: seq<Todo>, filter: Filter): (r: seq<Todo>)
    ensures Seqs.IsSubsequence(r, todos)
  {
    Seqs.FilterIsSubsequence(todos, Shows(filter));
    Seqs.Filter(todos, Shows(filter))
  }

  /** The All view is the whole list. */
  lemma AllShowsEverything(todos: seq<Todo>)
    ensures FilteredTodos(todos, All) == todos
  {
    Seqs.FilterKeepsAll(todos, Shows(All));
  }

  /**
   * The Active view holds exactly the open records, each as often as in the
   * list; it is what clearCompleted would leave.
   */
  lemma ActiveViewExactly(todos: seq<Todo>)
    ensures forall i :: 0 <= i < |FilteredTodos(todos, Active)| ==> !FilteredTodos(todos, Active)[i].completed
    ensures forall i :: 0 <= i < |todos| && !todos[i].completed ==> todos[i] in FilteredTodos(todos, Active)
    ensures forall t: Todo :: !t.completed ==> multiset(FilteredTodos(todos, Active))[t] == multiset(todos)[t]
    ensures FilteredTodos(todos, Active) == WithoutCompleted(todos)
  {
    Seqs.FilterSameCallback(todos, Shows(Active), IsActive);
    forall t: Todo | !t.completed
      ensures multiset(FilteredTodos(todos, Active))[t] == multiset(todos)[t]
    {
      Seqs.FilterMultiplicity(todos, Shows(Active), t);
    }
  }

  /** The Completed view holds exactly the done records, each as often as in the list. */
  lemma CompletedViewExactly(todos: seq<Todo>)
    ensures forall i :: 0 <= i < |FilteredTodos(todos, Completed)| ==> FilteredTodos(todos, Completed)[i].completed
    ensures forall i :: 0 <= i < |todos| && todos[i].completed ==> todos[i] in FilteredTodos(todos, Completed)
    ensures forall t: Todo :: t.completed ==> multiset(FilteredTodos(todos, Completed))[t] == multiset(todos)[t]
  {
    forall t: Todo | t.completed
      ensures multiset(FilteredTodos(todos, Completed))[t] == multiset(todos)[t]
    {
      Seqs.FilterMultiplicity(todos, Shows(Completed), t);
    }
  }

  /** The Active and Completed views split the list between them. */
  lemma ViewsPartition(todos: seq<Todo>)
    ensures |FilteredTodos(todos, Active)| + |FilteredTodos(todos, Completed)| == |todos|
  {
    Seqs.FilterComplementSizes(todos, Shows(Active), Shows(Completed));
  }

  /**
   * A short session on an empty store: add "Buy milk", tick it, add
   * "Walk dog", look at the Active view, then clear the completed todos.
   */
  method BuyMilkWalkDog() returns (active: seq<Todo>, remaining: seq<Todo>)
    ensures active == [Todo("2", "Walk dog", false)]
    ensures remaining == active
  {
    var store := new TodoStore(map[]);
    store.AddTodo(Todo("1", "Buy milk", false));
    store.ToggleTodo("1");
    assert IsFirstWithId(store.todos, "1", 0);
    assert store.todos == [Todo("1", "Buy milk", true)];
    store.AddTodo(Todo("2", "Walk dog", false));
    ActiveViewExactly(store.todos);
    active := FilteredTodos(store.todos, Active);
    store.ClearCompleted();
    remaining := store.todos;
    assert remaining == WithoutCompleted([Todo("1", "Buy milk", true), Todo("2", "Walk dog", false)]);
  }
}
