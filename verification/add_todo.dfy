/**
 * The add form: an input whose text, once trimmed, becomes a new open todo,
 * and a button that clears the completed todos.
 */
module AddTodo {
  import opened Wrappers
  import opened Text
  import opened TodoSlice

  /**
   * handleAdd's guard and record: nothing when the input is blank, otherwise
   * an open record with the given id and the trimmed input as its text.
   */
  function NewTodo(input: string, id: string): (r: Option<Todo>)
    ensures r.None? <==> AllWhitespace(input)
    ensures r.Some? ==> r.value.id == id && r.value.text == Trim(input) && !r.value.completed
    ensures r.Some? ==> IsCleanText(r.value.text)
  {
    TrimEmptyIff(input);
    var trimmed := Trim(input);
    if trimmed == [] then None else Some(Todo(id, trimmed, false))
  }

  /** The form's state: the text currently in the input. */
  class AddTodoForm {
    var text: string

    constructor ()
      ensures text == ""
    {
      text := "";
    }

    /** Typing into the input. */
    method OnChange(value: string)
      modifies this
      ensures text == value
    {
      text := value;
    }

    /**
     * Submitting the form. `freshId` stands for the generated id. A blank
     * input adds nothing and keeps the input; otherwise exactly one record is
     * appended and the input is cleared.
     */
    method HandleAdd(store: TodoStore, freshId: string) returns (added: bool)
      modifies this, store
      ensures added <==> NewTodo(old(text), freshId).Some?
      ensures added ==> store.todos == old(store.todos) + [NewTodo(old(text), freshId).value]
                        && store.storage == old(store.storage)[StorageKey := store.todos]
                        && text == ""
      ensures !added ==> store.todos == old(store.todos) && store.storage == old(store.storage)
                         && text == old(text)
      ensures AllTextsClean(old(store.todos)) ==> AllTextsClean(store.todos)
      ensures UniqueIds(old(store.todos)) && !IdInUse(old(store.todos), freshId) ==> UniqueIds(store.todos)
    {
      var candidate := NewTodo(text, freshId);
      if candidate.None? {
        return false;
      }
      ghost var before := store.todos;
      store.AddTodo(candidate.value);
      text := "";
      added := true;
      if AllTextsClean(before) {
        AddKeepsTextsClean(before, candidate.value);
      }
      if UniqueIds(before) && !IdInUse(before, freshId) {
        AddFreshKeepsIdsUnique(before, candidate.value);
      }
    }

    /** The "Clear completed" button: the store's clearCompleted. */
    method HandleClearCompleted(store: TodoStore)
      modifies store
      ensures store.todos == WithoutCompleted(old(store.todos))
      ensures store.storage == old(store.storage)[StorageKey := store.todos]
      ensures AllTextsClean(old(store.todos)) ==> AllTextsClean(store.todos)
    {
      ghost var before := store.todos;
      store.ClearCompleted();
      if AllTextsClean(before) {
        ClearCompletedKeepsTextsClean(before);
      }
    }
  }
}
