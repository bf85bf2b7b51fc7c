# Todo store and its form guards, in Dafny

This project models the state logic of a small Next.js/Redux todo application.

- The **todo store** (`TodoSlice`) holds an ordered list of `{id, text, completed}` records and has five reducers: `addTodo`, `toggleTodo`, `deleteTodo`, `editTodo` and `clearCompleted`. After every reducer it writes the whole list to browser storage under the key `"todos"`. At start-up it loads the saved list, or the empty list when nothing is saved. The store is the class `TodoStore`. Its `todos` field is the in-memory list. Its `storage` field is a map standing in for the browser's key-value storage. Each reducer is a method, and a function on lists specifies it: `Toggled`, `Edited`, `WithoutId` and `WithoutCompleted`.
- The **theme provider** (`Themes`) holds one of three themes. It starts at light, and its toggle cycles light → dark → blue → light. `UseTheme` fails outside a provider.
- The **list view's filter** (`TodoList`) shows All, Active or Completed records without changing the list.
- The **add form** (`AddTodo`) trims its input and ignores a blank submit. Otherwise it appends one open record with the trimmed text and clears the input. Its "Clear completed" button calls the store's `clearCompleted`.
- The **todo row** (`TodoItem`) saves an edit only when the trimmed text is non-blank and differs from the current text. Saving always leaves edit mode. The row's checkbox and delete button call `toggleTodo` and `deleteTodo` for the row's id.

Two helper modules model the JavaScript built-ins that these files rely on:
- `Text` models `String.prototype.trim`, over the ECMAScript whitespace and line-terminator characters.
- `Seqs` models `Array.prototype.filter` and `Array.prototype.find`.

The callbacks given to `filter` and `find` are named functions, such as `HasId(id)` and `NotId(id)`, so that the lemmas can talk about them.

The form components are classes that hold their component state (`text`, `isEditing`, `editText`). Their handlers are methods that receive the store. Composing these handlers with the store gives the end-to-end facts:
- Every UI path that dispatches to the store keeps `AllTextsClean`. So no blank or untrimmed text enters the store through the forms.
- `HandleAdd` keeps ids unique when the generated id is fresh.

The store itself checks neither property: `EditTodo` accepts any text.

Deleting removes every record with the given id. It removes exactly one record only when ids are unique, as `DeleteUnique` states. Loading falls back to the empty list when the key is absent or holds the empty string, since the source tests the saved value for truthiness. A map of lists cannot hold the empty string, so the model has only the absent case. Malformed saved data would make the load throw, because no error is caught; that throw is not modelled (see Left out).

## Model

| member | source | states |
|---|---|---|
| Text.Trim | components/AddTodo.tsx:19 | the trimmed text is no longer than the input, and neither of its ends is whitespace |
| Text.TrimCutsOnlyWhitespace | components/AddTodo.tsx:19 | the trimmed text is a contiguous slice of the input, and everything cut off before and after it is whitespace |
| Text.TrimEmptyIff | components/AddTodo.tsx:19-20 | the trimmed text is empty exactly when the input is all whitespace (the blank check `!trimmed`) |
| Text.TrimTrimmed | components/TodoItem.tsx:41 | trimming already-trimmed text returns it unchanged |
| Text.TrimIdempotent | components/TodoItem.tsx:41 | trimming twice equals trimming once |
| Seqs.Filter | app/store/todoSlice.ts:58 | `filter` keeps exactly the elements whose callback holds; the result is no longer than the input |
| Seqs.FindIndex | app/store/todoSlice.ts:50 | `find` yields the first index whose callback holds, or none when no element qualifies |
| Seqs.FilterIsSubsequence | components/TodoList.tsx:23-27 | a filter result is a subsequence of its input, in the original order |
| Seqs.FilterMultiplicity | app/store/todoSlice.ts:73 | a filter keeps every occurrence of a kept element and no occurrence of any other |
| Seqs.FilterKeepsAll | components/TodoList.tsx:26 | a filter whose callback holds on every element returns the input unchanged |
| Seqs.FilterIdempotent | app/store/todoSlice.ts:73 | filtering twice with the same callback equals filtering once |
| Seqs.FilterConcat | app/store/todoSlice.ts:58 | filtering distributes over concatenation |
| Seqs.FilterSameCallback | components/TodoList.tsx:24 | callbacks that agree everywhere give the same filter result |
| Seqs.FilterComplementSizes | components/TodoList.tsx:24-25 | a filter and the filter by the negated callback have sizes adding up to the input's |
| TodoSlice.LoadTodos | app/store/todoSlice.ts:23-25 | the loaded list is the list saved under "todos", or empty when nothing is saved there |
| TodoSlice.WithoutId | app/store/todoSlice.ts:58 | delete's filter keeps only records of the input whose id differs from the given one, and keeps every such record |
| TodoSlice.WithoutCompleted | app/store/todoSlice.ts:73 | clearCompleted's filter keeps only open records of the input, and keeps every open record |
| TodoSlice.Toggled | app/store/todoSlice.ts:50-51 | same length; only the first record with the id has `completed` flipped, keeping its id and text; every other record is unchanged |
| TodoSlice.Edited | app/store/todoSlice.ts:65-66 | same length; only the first record with the id gets the new text, keeping its id and `completed`; every other record is unchanged |
| TodoSlice.SaveThenLoad | app/store/todoSlice.ts:23-25 | the list written under "todos" is the list the next start-up loads; with nothing saved the loaded list is empty |
| TodoSlice.UpdateAbsent | app/store/todoSlice.ts:49-67 | toggling or editing an id that is not in the list leaves the list unchanged |
| TodoSlice.ToggleTwice | app/store/todoSlice.ts:50-51 | toggling the same id twice restores the original list |
| TodoSlice.EditTwice | app/store/todoSlice.ts:65-66 | of two edits of the same id, the later one alone decides the result |
| TodoSlice.DeleteKeepsOthers | app/store/todoSlice.ts:58 | delete leaves an in-order subsequence that has no record with the id and keeps every other record with its multiplicity |
| TodoSlice.DeleteAbsent | app/store/todoSlice.ts:58 | deleting an absent id changes nothing |
| TodoSlice.DeleteUnique | app/store/todoSlice.ts:58 | with unique ids, delete removes exactly the one matching record and keeps the rest in order |
| TodoSlice.ClearCompletedKeepsActive | app/store/todoSlice.ts:73 | clearCompleted leaves an in-order subsequence with no completed record that keeps every open record with its multiplicity |
| TodoSlice.ClearCompletedIdempotent | app/store/todoSlice.ts:73 | a second clearCompleted changes nothing |
| TodoSlice.AddFreshKeepsIdsUnique | app/store/todoSlice.ts:43 | appending a record with an unused id keeps ids unique |
| TodoSlice.UpdateKeepsIdsUnique | app/store/todoSlice.ts:49-67 | toggle and edit keep ids unique because they change no id |
| TodoSlice.FilterKeepsIdsUnique | app/store/todoSlice.ts:57-74 | delete and clearCompleted (any filter) keep ids unique |
| TodoSlice.AddKeepsTextsClean | app/store/todoSlice.ts:43 | appending a record whose text is trimmed and non-empty keeps all texts trimmed and non-empty |
| TodoSlice.ToggleKeepsTextsClean | app/store/todoSlice.ts:50-51 | toggling keeps all texts trimmed and non-empty |
| TodoSlice.EditKeepsTextsClean | app/store/todoSlice.ts:65-66 | an edit with trimmed, non-empty text keeps all texts trimmed and non-empty |
| TodoSlice.DeleteKeepsTextsClean | app/store/todoSlice.ts:58 | deleting keeps all texts trimmed and non-empty |
| TodoSlice.ClearCompletedKeepsTextsClean | app/store/todoSlice.ts:73 | clearCompleted keeps all texts trimmed and non-empty |
| TodoSlice.ReloadAfterWrite | app/store/todoSlice.ts:23-25 | after any write, a store started from the written storage loads exactly the list that was written |
| TodoSlice.TodoStore.constructor | app/store/todoSlice.ts:23-26 | the initial list is the saved list, or empty when nothing is saved; storage is not written |
| TodoSlice.TodoStore.Save | app/store/todoSlice.ts:44 | the whole list overwrites the value under "todos"; other keys are untouched |
| TodoSlice.TodoStore.AddTodo | app/store/todoSlice.ts:42-45 | the payload is appended at the end, earlier records unchanged; storage then equals the list |
| TodoSlice.TodoStore.ToggleTodo | app/store/todoSlice.ts:49-53 | the list becomes `Toggled` of the old list; storage is rewritten even when the id is absent |
| TodoSlice.TodoStore.DeleteTodo | app/store/todoSlice.ts:57-60 | the list becomes `WithoutId` of the old list; storage then equals the list |
| TodoSlice.TodoStore.EditTodo | app/store/todoSlice.ts:64-68 | the list becomes `Edited` of the old list, whatever the new text; storage is rewritten even when the id is absent |
| TodoSlice.TodoStore.ClearCompleted | app/store/todoSlice.ts:72-75 | the list becomes `WithoutCompleted` of the old list; storage then equals the list |
| Themes.NextTheme | app/theme-provider.tsx:35-37 | light goes to dark, dark to blue, blue to light; never the same theme |
| Themes.CycleOfThree | app/theme-provider.tsx:33-37 | three toggles return to the start, and two never do |
| Themes.NextThemeInjective | app/theme-provider.tsx:36 | no two themes toggle to the same theme |
| Themes.ThemeProvider.constructor | app/theme-provider.tsx:25 | a provider starts at light |
| Themes.ThemeProvider.ToggleTheme | app/theme-provider.tsx:34-38 | the theme becomes the next one in the cycle |
| Themes.ToggleThrice | app/theme-provider.tsx:34-38 | three calls of the toggle restore a provider's theme |
| Themes.UseTheme | app/theme-provider.tsx:52-56 | fails with the source's message exactly when there is no provider, and otherwise returns the provider unchanged |
| TodoList.Shows | components/TodoList.tsx:23-27 | the view's callback holds on every record for All, on exactly the open records for Active and on exactly the done records for Completed |
| TodoList.FilteredTodos | components/TodoList.tsx:23-27 | every view is an in-order subsequence of the list |
| TodoList.AllShowsEverything | components/TodoList.tsx:26 | the All view (the initial filter) is the whole list |
| TodoList.ActiveViewExactly | components/TodoList.tsx:24 | the Active view holds exactly the open records, with their multiplicities, and equals what clearCompleted leaves |
| TodoList.CompletedViewExactly | components/TodoList.tsx:25 | the Completed view holds exactly the done records, with their multiplicities |
| TodoList.ViewsPartition | components/TodoList.tsx:24-25 | the sizes of the Active and Completed views add up to the size of the list |
| TodoList.BuyMilkWalkDog | app/store/todoSlice.ts:42-75 | add, toggle, add, Active view, clearCompleted on an empty store leave only "Walk dog", both in the view and in the store |
| AddTodo.NewTodo | components/AddTodo.tsx:19-22 | no record for blank input; otherwise an open record with the given id whose text is the trimmed input, trimmed and non-empty |
| AddTodo.AddTodoForm.constructor | components/AddTodo.tsx:12 | the input starts empty |
| AddTodo.AddTodoForm.OnChange | components/AddTodo.tsx:40 | typing replaces the input text |
| AddTodo.AddTodoForm.HandleAdd | components/AddTodo.tsx:17-24 | a blank submit (`NewTodo` gives nothing) changes neither store, storage nor input; otherwise exactly the `NewTodo` record (open, trimmed text) is appended, storage is rewritten and the input is cleared; clean texts and (for a fresh id) unique ids are kept |
| AddTodo.AddTodoForm.HandleClearCompleted | components/AddTodo.tsx:54 | has the store's clearCompleted effect and keeps texts clean |
| TodoItem.SaveText | components/TodoItem.tsx:41-44 | an edit is produced exactly when the trimmed text is non-blank and differs from the current text, and it is that trimmed, non-empty text |
| TodoItem.TodoItemView.constructor | components/TodoItem.tsx:24-27 | a row starts out of edit mode, with the edit buffer holding the todo's text |
| TodoItem.TodoItemView.Rerender | components/TodoItem.tsx:13-19 | a re-render replaces the row's todo with the record passed in; edit mode and the edit buffer are untouched |
| TodoItem.TodoItemView.StartEditing | components/TodoItem.tsx:96 | the Edit button enters edit mode |
| TodoItem.TodoItemView.OnEditChange | components/TodoItem.tsx:73 | typing replaces the edit buffer |
| TodoItem.TodoItemView.HandleSave | components/TodoItem.tsx:40-48 | edits this todo's id to the `SaveText` result exactly when there is one (trimmed text non-blank and new), otherwise leaves store and storage alone; always leaves edit mode; keeps texts clean and ids unique |
| TodoItem.TodoItemView.OnToggle | components/TodoItem.tsx:65 | the checkbox toggles this todo's id and keeps texts clean |
| TodoItem.TodoItemView.OnDelete | components/TodoItem.tsx:102 | the delete button deletes this todo's id and keeps texts clean |

## Left out

- JSON serialisation: storage is a map from keys to lists, and the write and read of a list are taken to be lossless. Malformed saved data, which would make `JSON.parse` throw at load, is not modelled.
- Storage write failures, such as an exceeded quota, are not modelled. The source does not handle them.
- `nanoid`: the generated id is the `freshId` parameter of `AddTodoForm.HandleAdd`. Unique ids are stated under the condition that this id is unused, since the store never enforces uniqueness.
- Redux Toolkit and immer: the draft-state mutation in a reducer is modelled as an update of the `todos` field. `find` returning a reference that is mutated becomes an update at the found index. `configureStore` and the `Provider` wiring are framework glue (app/store/index.ts and app/providers.tsx are not part of this model).
- React rendering, focus handling and keyboard navigation (components/TodoItem.tsx:33-37, 51-53, 74) are not modelled. Neither are the empty-list message, the theme button labels, and the `data-theme` attribute that the provider sets on the page body.
- TodoItem.TodoItemView.constructor: the edit buffer takes the todo's text only when the row is created; `Rerender` later replaces the todo but, like `useState`, does not re-initialise the buffer. When React re-renders is not modelled.
- Strings: a Dafny string is a sequence of Unicode scalar values, while a JavaScript string is a sequence of UTF-16 code units. Trimming and the `!==` comparison still agree with the source, because every whitespace and line-terminator character is a single UTF-16 code unit and equality of scalar-value sequences coincides with equality of their UTF-16 encodings. Lengths are not compared anywhere, so the different length measures do not matter.
- Themes.UseTheme: the context value is the provider object itself, which carries the theme and the toggle. React's context lookup is not modelled.
- The page shell and metadata (app/layout.tsx, app/page.tsx) hold no logic.
