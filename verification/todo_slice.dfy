/**
 * The todo store: an ordered list of todo records, five reducers that change
 * it, and the write-through of the whole list to browser storage under the
 * key "todos" after every reducer.
 */
module TodoSlice {
  import opened Text
  import opened Seqs

  /** One task: an opaque id, its text and whether it is done. */
  datatype Todo = Todo(id: string, text: string, completed: bool)

  /** The storage key the list is written under. */
  const StorageKey: string := "todos"

  /** The `find` callback of toggleTodo and editTodo. */
  function HasId(id: string): Todo -> bool {
    (t: Todo) => t.id == id
  }

  /** The `filter` callback of deleteTodo. */
  function NotId(id: string): Todo -> bool {
    (t: Todo) => t.id != id
  }

  /** The `filter` callback of clearCompleted. */
  predicate IsActive(t: Todo) {
    !t.completed
  }

  predicate IdInUse(s: seq<Todo>, id: string) {
    exists i :: 0 <= i < |s| && s[i].id == id
  }

  /** No two records share an id. The store relies on it but never checks it. */
  predicate UniqueIds(s: seq<Todo>) {
    forall i, j :: 0 <= i < j < |s| ==> s[i].id != s[j].id
  }

  /** Every record's text is trimmed and non-empty, as the add and edit forms ensure. */
  predicate AllTextsClean(s: seq<Todo>) {
    forall i :: 0 <= i < |s| ==> IsCleanText(s[i].text)
  }

  /** Position `j` holds the first record with `id`: the one `find` returns. */
  predicate IsFirstWithId(s: seq<Todo>, id: string, j: nat)
    requires j < |s|
  {
    s[j].id == id && forall k :: 0 <= k < j ==> s[k].id != id
  }

  /**
   * The list loaded at start-up: the list saved under StorageKey, or the
   * empty list when nothing is saved there.
   */
  function LoadTodos(storage: map<string, seq<Todo>>): (r: seq<Todo>)
    ensures StorageKey in storage ==> r == storage[StorageKey]
    ensures StorageKey !in storage ==> r == []
  {
    if StorageKey in storage then storage[StorageKey] else []
  }

  /** toggleTodo on a list: the first record with `id` has `completed` flipped. */
  function Toggled(s: seq<Todo>, id: string): (r: seq<Todo>)
    ensures |r| == |s|
    ensures forall j :: 0 <= j < |s| ==>
      r[j] == if IsFirstWithId(s, id, j) then Todo(s[j].id, s[j].text, !s[j].completed) else s[j]
  {
    match FindIndex(s, HasId(id))
    case None => s
    case Some(i) => s[i := s[i].(completed := !s[i].completed)]
  }

  /** editTodo on a list: the first record with `id` gets `newText`. */
  function Edited(s: seq<Todo>, id: string, newText: string): (r: seq<Todo>)
    ensures |r| == |s|
    ensures forall j :: 0 <= j < |s| ==>
      r[j] == if IsFirstWithId(s, id, j) then Todo(s[j].id, newText, s[j].completed) else s[j]
  {
    match FindIndex(s, HasId(id))
    case None => s
    case Some(i) => s[i := s[i].(text := newText)]
  }

  /** deleteTodo on a list: every record with `id` is dropped, every other record kept. */
  function WithoutId(s: seq<Todo>, id: string): (r: seq<Todo>)
    ensures forall i :: 0 <= i < |r| ==> r[i].id != id && r[i] in s
    ensures forall i :: 0 <= i < |s| && s[i].id != id ==> s[i] in r
  {
    Filter(s, NotId(id))
  }

  /** clearCompleted on a list: every completed record is dropped, every open one kept. */
  function WithoutCompleted(s: seq<Todo>): (r: seq<Todo>)
    ensures forall i :: 0 <= i < |r| ==> !r[i].completed && r[i] in s
    ensures forall i :: 0 <= i < |s| && !s[i].completed ==> s[i] in r
  {
    Filter(s, IsActive)
  }

  /** What was saved is what the next start-up loads; with nothing saved it loads the empty list. */
  lemma SaveThenLoad(storage: map<string, seq<Todo>>, s: seq<Todo>)
    ensures LoadTodos(storage[StorageKey := s]) == s
    ensures LoadTodos(map[]) == []
  {
  }

  /** toggleTodo and editTodo leave a list without the id as it is. */
  lemma UpdateAbsent(s: seq<Todo>, id: string, newText: string)
    requires !IdInUse(s, id)
    ensures Toggled(s, id) == s
    ensures Edited(s, id, newText) == s
  {
    assert forall j :: 0 <= j < |s| ==> !IsFirstWithId(s, id, j);
  }

  /** Toggling the same id twice restores the list. */
  lemma ToggleTwice(s: seq<Todo>, id: string)
    ensures Toggled(Toggled(s, id), id) == s
  {
    var r := Toggled(s, id);
    var t := Toggled(r, id);
    forall j | 0 <= j < |s| ensures t[j] == s[j] {
      assert IsFirstWithId(r, id, j) == IsFirstWithId(s, id, j);
    }
  }

  /** Of two edits of the same id, the later one wins. */
  lemma EditTwice(s: seq<Todo>, id: string, a: string, b: string)
    ensures Edited(Edited(s, id, a), id, b) == Edited(s, id, b)
  {
    var r := Edited(s, id, a);
    forall j | 0 <= j < |s| ensures Edited(r, id, b)[j] == Edited(s, id, b)[j] {
      assert IsFirstWithId(r, id, j) == IsFirstWithId(s, id, j);
    }
  }

  /**
   * deleteTodo keeps exactly the records whose id differs, each as often as
   * before and in the original order.
   */
  lemma DeleteKeepsOthers(s: seq<Todo>, id: string)
    ensures IsSubsequence(WithoutId(s, id), s)
    ensures !IdInUse(WithoutId(s, id), id)
    ensures forall i :: 0 <= i < |s| && s[i].id != id ==> s[i] in WithoutId(s, id)
    ensures forall t: Todo :: t.id != id ==> multiset(WithoutId(s, id))[t] == multiset(s)[t]
  {
    FilterIsSubsequence(s, NotId(id));
    forall t: Todo | t.id != id ensures multiset(WithoutId(s, id))[t] == multiset(s)[t] {
      FilterMultiplicity(s, NotId(id), t);
    }
  }

  /** Deleting an id that is not in the list changes nothing. */
  lemma DeleteAbsent(s: seq<Todo>, id: string)
    requires !IdInUse(s, id)
    ensures WithoutId(s, id) == s
  {
    FilterKeepsAll(s, NotId(id));
  }

  /** With unique ids, deleteTodo removes exactly the one record with that id. */
  lemma DeleteUnique(s: seq<Todo>, id: string, i: nat)
    requires UniqueIds(s) && i < |s| && s[i].id == id
    ensures WithoutId(s, id) == s[..i] + s[i + 1..]
    ensures |WithoutId(s, id)| == |s| - 1
  {
    var p := NotId(id);
    var before, after := s[..i], s[i + 1..];
    assert s == (before + [s[i]]) + after;
    assert forall k :: 0 <= k < |before| ==> before[k] == s[k];
    assert forall k :: 0 <= k < |before| ==> p(before[k]);
    assert forall k :: 0 <= k < |after| ==> after[k] == s[i + 1 + k];
    assert forall k :: 0 <= k < |after| ==> p(after[k]);
    FilterKeepsAll(before, p);
    FilterKeepsAll(after, p);
    assert Filter([s[i]], p) == [];
    FilterConcat(before, [s[i]], p);
    assert Filter(before + [s[i]], p) == before;
    FilterConcat(before + [s[i]], after, p);
    assert Filter(s, p) == before + after;
  }

  /**
   * clearCompleted keeps exactly the active records, each as often as before
   * and in the original order; no completed record remains.
   */
  lemma ClearCompletedKeepsActive(s: seq<Todo>)
    ensures IsSubsequence(WithoutCompleted(s), s)
    ensures forall i :: 0 <= i < |WithoutCompleted(s)| ==> !WithoutCompleted(s)[i].completed
    ensures forall i :: 0 <= i < |s| && !s[i].completed ==> s[i] in WithoutCompleted(s)
    ensures forall t: Todo :: !t.completed ==> multiset(WithoutCompleted(s))[t] == multiset(s)[t]
  {
    FilterIsSubsequence(s, IsActive);
    forall t: Todo | !t.completed ensures multiset(WithoutCompleted(s))[t] == multiset(s)[t] {
      FilterMultiplicity(s, IsActive, t);
    }
  }

  /** A second clearCompleted changes nothing. */
  lemma ClearCompletedIdempotent(s: seq<Todo>)
    ensures WithoutCompleted(WithoutCompleted(s)) == WithoutCompleted(s)
  {
    FilterIdempotent(s, IsActive);
  }

  /** Appending a record with a fresh id keeps the ids unique. */
  lemma AddFreshKeepsIdsUnique(s: seq<Todo>, t: Todo)
    requires UniqueIds(s) && !IdInUse(s, t.id)
    ensures UniqueIds(s + [t])
  {
  }

  /** Toggling and editing never change an id. */
  lemma UpdateKeepsIdsUnique(s: seq<Todo>, id: string, newText: string)
    requires UniqueIds(s)
    ensures UniqueIds(Toggled(s, id))
    ensures UniqueIds(Edited(s, id, newText))
  {
  }

  /** Any filter of a list with unique ids has unique ids. */
  lemma {:induction false} FilterKeepsIdsUnique(s: seq<Todo>, p: Todo -> bool)
    requires UniqueIds(s)
    ensures UniqueIds(Filter(s, p))
  {
    if s != [] {
      FilterKeepsIdsUnique(s[1..], p);
      var rest := Filter(s[1..], p);
      if p(s[0]) {
        assert forall k :: 0 <= k < |rest| ==> rest[k] in s[1..];
        assert forall k :: 0 <= k < |rest| ==> rest[k].id != s[0].id;
      }
    }
  }

  /** Appending a record with clean text keeps every text clean. */
  lemma AddKeepsTextsClean(s: seq<Todo>, t: Todo)
    requires AllTextsClean(s) && IsCleanText(t.text)
    ensures AllTextsClean(s + [t])
  {
  }

  /** Toggling never touches a text. */
  lemma ToggleKeepsTextsClean(s: seq<Todo>, id: string)
    requires AllTextsClean(s)
    ensures AllTextsClean(Toggled(s, id))
  {
  }

  /** An edit that brings in clean text keeps every text clean. */
  lemma EditKeepsTextsClean(s: seq<Todo>, id: string, newText: string)
    requires AllTextsClean(s) && IsCleanText(newText)
    ensures AllTextsClean(Edited(s, id, newText))
  {
  }

  /** Deleting only drops records. */
  lemma DeleteKeepsTextsClean(s: seq<Todo>, id: string)
    requires AllTextsClean(s)
    ensures AllTextsClean(WithoutId(s, id))
  {
  }

  /** Clearing the completed records only drops records. */
  lemma ClearCompletedKeepsTextsClean(s: seq<Todo>)
    requires AllTextsClean(s)
    ensures AllTextsClean(WithoutCompleted(s))
  {
  }

  /**
   * The store. `todos` is the in-memory list; `storage` stands for the
   * browser's key-value storage, which every reducer overwrites at
   * StorageKey with the whole new list.
   */
  class TodoStore {
    var todos: seq<Todo>
    var storage: map<string, seq<Todo>>

    /** The saved copy and the in-memory list agree. */
    predicate Persisted()
      reads this
    {
      StorageKey in storage && storage[StorageKey] == todos
    }

    /** Start-up: the list is whatever was saved, or empty; storage is not written. */
    constructor (storage: map<string, seq<Todo>>)
      ensures this.storage == storage
      ensures todos == LoadTodos(storage)
    {
      this.storage := storage;
      todos := LoadTodos(storage);
    }

    /** Overwrites the saved copy with the whole current list. */
    method Save()
      modifies this`storage
      ensures storage == old(storage)[StorageKey := todos]
      ensures Persisted()
    {
      storage := storage[StorageKey := todos];
    }

    method AddTodo(todo: Todo)
      modifies this
      ensures todos == old(todos) + [todo]
      ensures storage == old(storage)[StorageKey := todos] && Persisted()
    {
      todos := todos + [todo];
      Save();
    }

    method ToggleTodo(id: string)
      modifies this
      ensures todos == Toggled(old(todos), id)
      ensures storage == old(storage)[StorageKey := todos] && Persisted()
    {
      var found := FindIndex(todos, HasId(id));
      if found.Some? {
        var i := found.value;
        todos := todos[i := todos[i].(completed := !todos[i].completed)];
      }
      Save();
    }

    method DeleteTodo(id: string)
      modifies this
      ensures todos == WithoutId(old(todos), id)
      ensures storage == old(storage)[StorageKey := todos] && Persisted()
    {
      todos := Filter(todos, NotId(id));
      Save();
    }

    /** The store itself accepts any `newText`, blank or not. */
    method EditTodo(id: string, newText: string)
      modifies this
      ensures todos == Edited(old(todos), id, newText)
      ensures storage == old(storage)[StorageKey := todos] && Persisted()
    {
      var found := FindIndex(todos, HasId(id));
      if found.Some? {
        var i := found.value;
        todos := todos[i := todos[i].(text := newText)];
      }
      Save();
    }

    method ClearCompleted()
      modifies this
      ensures todos == WithoutCompleted(old(todos))
      ensures storage == old(storage)[StorageKey := todos] && Persisted()
    {
      todos := Filter(todos, IsActive);
      Save();
    }
  }

  /**
   * Once a reducer has written the list through, a store started from that
   * storage loads the same list.
   */
  method ReloadAfterWrite(store: TodoStore) returns (reloaded: seq<Todo>)
    requires store.Persisted()
    ensures reloaded == store.todos
  {
    var again := new TodoStore(store.storage);
    reloaded := again.todos;
  }
}
