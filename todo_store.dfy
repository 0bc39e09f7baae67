/** src/core/hooks/todoStore.ts: the todo collection store. Every action
    clears the error and raises the loading flag, computes a new list from
    the in-memory one (module TodoList), writes it to storage, reloads the
    in-memory list from storage and lowers the loading flag; a storage
    exception leaves the error set and the list as it was. */
module TodoStore {
  import opened Types
  import opened StorageService
  import opened TodoList

  class Store {
    var todos: seq<Todo>
    var isLoading: bool
    var error: Option<string>
    const storage: Storage
    const ids: IdSource

    /** What every load establishes: display order, and no sub-todo id missing. */
    ghost predicate Valid()
      reads this
    {
      AllSubIdsSet(todos) && DisplayOrdered(todos)
    }

    /** The store's initial state. */
    constructor (storage: Storage, ids: IdSource)
      ensures todos == [] && !isLoading && error == None
      ensures this.storage == storage && this.ids == ids
      ensures Valid()
    {
      todos := [];
      isLoading := false;
      error := None;
      this.storage := storage;
      this.ids := ids;
    }

    /** The state an action that computed `updated` ends in, given the
        users dictionary, draw count and list it started from: on a
        storage exception the error is set and nothing else moved; else
        storage holds `updated` for the user and memory its loaded copy. */
    ghost predicate Settled(users0: Users, drawn0: nat, todos0: seq<Todo>, userId: string, updated: seq<Todo>)
      reads this, storage, ids
    {
      && !isLoading
      && if storage.writeFailure.Some? then
           && error == storage.writeFailure
           && todos == todos0 && storage.users == users0 && ids.drawn == drawn0
         else
           && error == None
           && storage.users == WithTodos(users0, userId, updated)
           && (todos, ids.drawn) == Loaded(updated, ids.oracle, drawn0)
    }

    /** `todoStore_loadTodos`: memory becomes the user's stored list with
        missing sub-todo ids drawn and sorted for display; storage is only read. */
    method LoadTodos(userId: string)
      modifies this, ids
      ensures !isLoading && error == None
      ensures (todos, ids.drawn) == Loaded(TodosOf(storage.users, userId), ids.oracle, old(ids.drawn))
      ensures Valid()
    {
      isLoading, error := true, None;
      var stored := TodosOf(storage.users, userId);
      var filled := FillIds(stored, ids.oracle, ids.drawn);
      LoadedProperties(stored, ids.oracle, ids.drawn);
      ids.drawn := filled.1;
      todos := SortForDisplay(filled.0);
      isLoading := false;
    }

    /** The common tail of every action: save `updated`, then reload. */
    method Commit(userId: string, updated: seq<Todo>)
      requires isLoading && error == None
      modifies this, storage, ids
      ensures Settled(old(storage.users), old(ids.drawn), old(todos), userId, updated)
      ensures storage.loggedIn == old(storage.loggedIn)
      ensures old(Valid()) ==> Valid()
    {
      var err := storage.SaveUserTodos(userId, updated);
      if err.Some? {
        isLoading, error := false, err;
        return;
      }
      SaveThenRead(old(storage.users), userId, updated, userId);
      LoadTodos(userId);
      isLoading := false;
    }

    /** `todoStore_addTodo`: appends one new incomplete todo without sub-todos. */
    method AddTodo(userId: string, text: string, dueDate: int, now: int)
      modifies this, storage, ids
      ensures Settled(old(storage.users), old(ids.drawn) + 1, old(todos), userId,
                      old(todos) + [NewTodo(ids.oracle(old(ids.drawn)), userId, text, dueDate, now)])
      ensures storage.loggedIn == old(storage.loggedIn)
      ensures old(Valid()) ==> Valid()
    {
      isLoading, error := true, None;
      var id := ids.Next();
      var updated := todos + [NewTodo(id, userId, text, dueDate, now)];
      assert updated == old(todos) + [NewTodo(ids.oracle(old(ids.drawn)), userId, text, dueDate, now)];
      assert storage.users == old(storage.users) && ids.drawn == old(ids.drawn) + 1;
      Commit(userId, updated);
    }

    /** `todoStore_updateTodo`: replaces the todos with `updated.id`. */
    method UpdateTodo(userId: string, updated: Todo)
      modifies this, storage, ids
      ensures Settled(old(storage.users), old(ids.drawn), old(todos), userId, ReplaceById(old(todos), updated.id, updated))
      ensures storage.loggedIn == old(storage.loggedIn)
      ensures old(Valid()) ==> Valid()
    {
      isLoading, error := true, None;
      Commit(userId, ReplaceById(todos, updated.id, updated));
    }

    /** `todoStore_deleteTodo`: drops the todos with the id. */
    method DeleteTodo(userId: string, todoId: string)
      modifies this, storage, ids
      ensures Settled(old(storage.users), old(ids.drawn), old(todos), userId, RemoveById(old(todos), todoId))
      ensures storage.loggedIn == old(storage.loggedIn)
      ensures old(Valid()) ==> Valid()
    {
      isLoading, error := true, None;
      Commit(userId, RemoveById(todos, todoId));
    }

    /** `todoStore_toggleMainTodoCompletion`. */
    method ToggleMainTodoCompletion(userId: string, todoId: string, isCompleted: bool)
      modifies this, storage, ids
      ensures Settled(old(storage.users), old(ids.drawn), old(todos), userId, ToggleMain(old(todos), todoId, isCompleted))
      ensures storage.loggedIn == old(storage.loggedIn)
      ensures old(Valid()) ==> Valid()
    {
      isLoading, error := true, None;
      Commit(userId, ToggleMain(todos, todoId, isCompleted));
    }

    /** `todoStore_toggleSubTodoCompletion`. */
    method ToggleSubTodoCompletion(userId: string, todoId: string, subTodoId: string, isCompleted: bool)
      modifies this, storage, ids
      ensures Settled(old(storage.users), old(ids.drawn), old(todos), userId,
                      ToggleSub(old(todos), todoId, subTodoId, isCompleted))
      ensures storage.loggedIn == old(storage.loggedIn)
      ensures old(Valid()) ==> Valid()
    {
      isLoading, error := true, None;
      Commit(userId, ToggleSub(todos, todoId, subTodoId, isCompleted));
    }

    /** `todoStore_addSubTodo`: appends a new incomplete sub-todo. */
    method AddSubTodo(userId: string, todoId: string, subTodoText: string)
      modifies this, storage, ids
      ensures Settled(old(storage.users), old(ids.drawn) + 1, old(todos), userId,
                      AddSub(old(todos), todoId, SubTodo(ids.oracle(old(ids.drawn)), subTodoText, false)))
      ensures storage.loggedIn == old(storage.loggedIn)
      ensures old(Valid()) ==> Valid()
    {
      isLoading, error := true, None;
      var id := ids.Next();
      var updated := AddSub(todos, todoId, SubTodo(id, subTodoText, false));
      assert updated == AddSub(old(todos), todoId, SubTodo(ids.oracle(old(ids.drawn)), subTodoText, false));
      assert storage.users == old(storage.users) && ids.drawn == old(ids.drawn) + 1;
      Commit(userId, updated);
    }

    /** `todoStore_updateSubTodo`: replaces the todos with `todoId` by `updated`. */
    method UpdateSubTodo(userId: string, todoId: string, updated: Todo)
      modifies this, storage, ids
      ensures Settled(old(storage.users), old(ids.drawn), old(todos), userId, ReplaceById(old(todos), todoId, updated))
      ensures storage.loggedIn == old(storage.loggedIn)
      ensures old(Valid()) ==> Valid()
    {
      isLoading, error := true, None;
      Commit(userId, ReplaceById(todos, todoId, updated));
    }

    /** `todoStore_deleteSubTodo`. */
    method DeleteSubTodo(userId: string, todoId: string, subTodoId: string)
      modifies this, storage, ids
      ensures Settled(old(storage.users), old(ids.drawn), old(todos), userId, DeleteSub(old(todos), todoId, subTodoId))
      ensures storage.loggedIn == old(storage.loggedIn)
      ensures old(Valid()) ==> Valid()
    {
      isLoading, error := true, None;
      Commit(userId, DeleteSub(todos, todoId, subTodoId));
    }
  }

  // ---------------------------------------------------------------------
  // What a successful action leaves in memory, for a store whose memory
  // came from a load (so no sub-todo id is missing)

  /** After `addTodo`, memory holds the old todos and exactly one more. */
  lemma AddTodoMemory(mem: seq<Todo>, t: Todo, gen: IdOracle, k: nat)
    requires AllSubIdsSet(mem) && t.subTodos == []
    ensures multiset(Loaded(mem + [t], gen, k).0) == multiset(mem) + multiset{t}
    ensures Loaded(mem + [t], gen, k).1 == k
  {
    AppendKeepsIdsSet(mem, t);
    LoadedProperties(mem + [t], gen, k);
  }

  /** After `deleteTodo`, memory holds exactly the todos with another id
      (a reordering of the filtered list) and the reload draws nothing. */
  lemma DeleteTodoMemory(mem: seq<Todo>, id: string, gen: IdOracle, k: nat)
    requires AllSubIdsSet(mem)
    ensures multiset(Loaded(RemoveById(mem, id), gen, k).0) == multiset(RemoveById(mem, id))
    ensures Loaded(RemoveById(mem, id), gen, k).1 == k
  {
    RemoveKeepsIdsSet(mem, id);
    LoadedProperties(RemoveById(mem, id), gen, k);
  }

  /** After `toggleMainTodoCompletion`, memory is a reordering of the
      toggled list and draws nothing. */
  lemma ToggleMainMemory(mem: seq<Todo>, id: string, c: bool, gen: IdOracle, k: nat)
    requires AllSubIdsSet(mem)
    ensures multiset(Loaded(ToggleMain(mem, id, c), gen, k).0) == multiset(ToggleMain(mem, id, c))
    ensures Loaded(ToggleMain(mem, id, c), gen, k).1 == k
  {
    ToggleKeepsIdsSet(mem, id, "", c);
    LoadedProperties(ToggleMain(mem, id, c), gen, k);
  }

  /** After `toggleSubTodoCompletion`, memory is a reordering of the
      toggled list and draws nothing. */
  lemma ToggleSubMemory(mem: seq<Todo>, id: string, subId: string, c: bool, gen: IdOracle, k: nat)
    requires AllSubIdsSet(mem)
    ensures multiset(Loaded(ToggleSub(mem, id, subId, c), gen, k).0) == multiset(ToggleSub(mem, id, subId, c))
    ensures Loaded(ToggleSub(mem, id, subId, c), gen, k).1 == k
  {
    ToggleKeepsIdsSet(mem, id, subId, c);
    LoadedProperties(ToggleSub(mem, id, subId, c), gen, k);
  }

  /** After `addSubTodo`, memory is a reordering of the extended list and
      the reload draws nothing beyond the new sub-todo's id. */
  lemma AddSubMemory(mem: seq<Todo>, id: string, sub: SubTodo, gen: IdOracle, k: nat)
    requires AllSubIdsSet(mem) && sub.id != ""
    ensures multiset(Loaded(AddSub(mem, id, sub), gen, k).0) == multiset(AddSub(mem, id, sub))
    ensures Loaded(AddSub(mem, id, sub), gen, k).1 == k
  {
    AddSubKeepsIdsSet(mem, id, sub);
    LoadedProperties(AddSub(mem, id, sub), gen, k);
  }

  /** After `deleteSubTodo`, memory is a reordering of the pruned list. */
  lemma DeleteSubMemory(mem: seq<Todo>, id: string, subId: string, gen: IdOracle, k: nat)
    requires AllSubIdsSet(mem)
    ensures multiset(Loaded(DeleteSub(mem, id, subId), gen, k).0) == multiset(DeleteSub(mem, id, subId))
    ensures Loaded(DeleteSub(mem, id, subId), gen, k).1 == k
  {
    DeleteSubKeepsIdsSet(mem, id, subId);
    LoadedProperties(DeleteSub(mem, id, subId), gen, k);
  }

  /** A toggle of an unknown todo id, like an update or delete of one,
      writes back the list unchanged. */
  lemma UnknownIdChangesNothing(mem: seq<Todo>, id: string, subId: string, c: bool, t: Todo)
    requires forall i :: 0 <= i < |mem| ==> mem[i].id != id
    ensures ReplaceById(mem, id, t) == mem
    ensures RemoveById(mem, id) == mem
    ensures ToggleMain(mem, id, c) == mem
    ensures ToggleSub(mem, id, subId, c) == mem
    ensures AddSub(mem, id, SubTodo(subId, "", false)) == mem
    ensures DeleteSub(mem, id, subId) == mem
  {
  }
}
