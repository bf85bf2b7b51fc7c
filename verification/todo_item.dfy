/**
 * One row of the list: a checkbox that toggles the todo, an in-place editor
 * whose save writes the trimmed text back, and a delete button.
 */
module TodoItem {
  import opened Wrappers
  import opened Text
  import opened TodoSlice

  /**
   * handleSave's guard: the trimmed edit text when it is non-blank and
   * differs from the current text, nothing otherwise.
   */
  function SaveText(editText: string, current: string): (r: Option<string>)
    ensures r.Some? <==> !AllWhitespace(editText) && Trim(editText) != current
    ensures r.Some? ==> r.value == Trim(editText) && IsCleanText(r.value)
  {
    TrimEmptyIff(editText);
    var trimmed := Trim(editText);
    if trimmed != [] && trimmed != current then Some(trimmed) else None
  }

  /** The row's state: the todo it shows, whether it is being edited, and the edit buffer. */
  class TodoItemView {
    var todo: Todo
    var isEditing: bool
    var editText: string

    constructor (todo: Todo)
      ensures this.todo == todo && !isEditing && editText == todo.text
    {
      this.todo := todo;
      isEditing := false;
      editText := todo.text;
    }

    /**
     * A re-render with the record now in the store. The edit buffer keeps
     * its value: its initial value is only used when the row is created.
     */
    method Rerender(todo: Todo)
      modifies this`todo
      ensures this.todo == todo
    {
      this.todo := todo;
    }

    /** Double-clicking the text or pressing Edit. */
    method StartEditing()
      modifies this`isEditing
      ensures isEditing
    {
      isEditing := true;
    }

    /** Typing into the editor. */
    method OnEditChange(value: string)
      modifies this`editText
      ensures editText == value
    {
      editText := value;
    }

    /**
     * Save (button or Enter): edits the store only when the trimmed text is
     * non-blank and new, and always leaves edit mode.
     */
    method HandleSave(store: TodoStore) returns (dispatched: bool)
      modifies this`isEditing, store
      ensures !isEditing
      ensures dispatched <==> SaveText(editText, todo.text).Some?
      ensures dispatched ==> store.todos == Edited(old(store.todos), todo.id, SaveText(editText, todo.text).value)
                             && store.storage == old(store.storage)[StorageKey := store.todos]
      ensures !dispatched ==> store.todos == old(store.todos) && store.storage == old(store.storage)
      ensures AllTextsClean(old(store.todos)) ==> AllTextsClean(store.todos)
      ensures UniqueIds(old(store.todos)) ==> UniqueIds(store.todos)
    {
      var newText := SaveText(editText, todo.text);
      dispatched := newText.Some?;
      if dispatched {
        ghost var before := store.todos;
        store.EditTodo(todo.id, newText.value);
        if AllTextsClean(before) {
          EditKeepsTextsClean(before, todo.id, newText.value);
        }
        if UniqueIds(before) {
          UpdateKeepsIdsUnique(before, todo.id, newText.value);
        }
      }
      isEditing := false;
    }

    /** The checkbox. */
    method OnToggle(store: TodoStore)
      modifies store
      ensures store.todos == Toggled(old(store.todos), todo.id)
      ensures store.storage == old(store.storage)[StorageKey := store.todos]
      ensures AllTextsClean(old(store.todos)) ==> AllTextsClean(store.todos)
    {
      ghost var before := store.todos;
      store.ToggleTodo(todo.id);
      if AllTextsClean(before) {
        ToggleKeepsTextsClean(before, todo.id);
      }
    }

    /** The delete button. */
    method OnDelete(store: TodoStore)
      modifies store
      ensures store.todos == WithoutId(old(store.todos), todo.id)
      ensures store.storage == old(store.storage)[StorageKey := store.todos]
      ensures AllTextsClean(old(store.todos)) ==> AllTextsClean(store.todos)
    {
      ghost var before := store.todos;
      store.DeleteTodo(todo.id);
      if AllTextsClean(before) {
        DeleteKeepsTextsClean(before, todo.id);
      }
    }
  }
}
