/** src/core/components/todo/TodoCard.tsx: one todo's card. Its only own
    state is the map of sub-todo texts being typed; every other handler
    forwards to the todo store (or to the page, for edit and delete). */
module TodoCard {
  import opened Types
  import opened StorageService
  import opened TodoList
  import opened TodoStore
  import opened MainPage

  /** The key of a sub-todo's typed text: `${todo.id}-${subTodoId}`. */
  function EditKey(todoId: string, subId: string): string {
    todoId + "-" + subId
  }

  /** Within one card the todo id is fixed, so two sub-todos never share a key. */
  lemma EditKeyInjective(todoId: string, s1: string, s2: string)
    requires EditKey(todoId, s1) == EditKey(todoId, s2)
    ensures s1 == s2
  {
    var n := |todoId| + 1;
    assert s1 == EditKey(todoId, s1)[n..];
    assert s2 == EditKey(todoId, s2)[n..];
  }

  /** The todo `TodoCard_handleUpdateSubTodoText` saves: the card's todo
      with the text of the sub-todos carrying `subId` replaced. */
  function WithSubText(t: Todo, subId: string, newText: string): (r: Todo)
    ensures r == t.(subTodos := r.subTodos) && |r.subTodos| == |t.subTodos|
    ensures forall j :: 0 <= j < |t.subTodos| ==>
      r.subTodos[j] == if t.subTodos[j].id == subId then t.subTodos[j].(text := newText) else t.subTodos[j]
  {
    t.(subTodos := seq(|t.subTodos|, j requires 0 <= j < |t.subTodos| =>
      if t.subTodos[j].id == subId then t.subTodos[j].(text := newText) else t.subTodos[j]))
  }

  /** The list the last save of `TodoCard_handleCreateSubTodo` writes, and
      the draw number its reload starts from. A completed payload is first
      saved reopened (which reloads, and may draw ids), then the empty
      sub-todo is added to the reloaded list; an open one only gets the
      sub-todo. */
  function CreateSubWrite(mem: seq<Todo>, p: Todo, gen: IdOracle, k: nat): (w: (seq<Todo>, nat))
    ensures |w.0| == |mem| && k < w.1
  {
    if p.isCompleted then
      var reloaded := Loaded(ReplaceById(mem, p.id, p.(isCompleted := false)), gen, k);
      LoadedProperties(ReplaceById(mem, p.id, p.(isCompleted := false)), gen, k);
      (AddSub(reloaded.0, p.id, SubTodo(gen(reloaded.1), "", false)), reloaded.1 + 1)
    else
      (AddSub(mem, p.id, SubTodo(gen(k), "", false)), k + 1)
  }

  /** On a loaded list, creating a sub-todo under a completed todo reopens
      it: every todo with that id ends as the card's todo, incomplete, with
      one empty incomplete sub-todo appended, and exactly one id is drawn. */
  lemma CreateSubReopens(mem: seq<Todo>, p: Todo, gen: IdOracle, k: nat)
    requires AllSubIdsSet(mem) && AllSubIdsSet([p]) && p.isCompleted
    ensures CreateSubWrite(mem, p, gen, k).1 == k + 1
    ensures forall i :: 0 <= i < |mem| && CreateSubWrite(mem, p, gen, k).0[i].id == p.id ==>
      CreateSubWrite(mem, p, gen, k).0[i] ==
        p.(isCompleted := false, subTodos := p.subTodos + [SubTodo(gen(k), "", false)])
  {
    var reopened := p.(isCompleted := false);
    var replaced := ReplaceById(mem, p.id, reopened);
    assert AllSubIdsSet([reopened]) by {
      assert [reopened][0].subTodos == [p][0].subTodos;
    }
    ReplaceKeepsIdsSet(mem, p.id, reopened);
    LoadedProperties(replaced, gen, k);
    var reloaded := Loaded(replaced, gen, k).0;
    var w := CreateSubWrite(mem, p, gen, k).0;
    forall i | 0 <= i < |mem| && w[i].id == p.id
      ensures w[i] == p.(isCompleted := false, subTodos := p.subTodos + [SubTodo(gen(k), "", false)])
    {
      assert reloaded[i].id == p.id;
      assert reloaded[i] in multiset(replaced);
      var m :| 0 <= m < |replaced| && replaced[m] == reloaded[i];
      assert reloaded[i] == reopened;
    }
  }

  /** Under an open todo the sub-todo is simply appended to the stored
      list: each todo with the id keeps its flag and gains one empty
      sub-todo at the end, and the others stay as they are. */
  lemma CreateSubOnOpen(mem: seq<Todo>, p: Todo, gen: IdOracle, k: nat)
    requires !p.isCompleted
    ensures CreateSubWrite(mem, p, gen, k).1 == k + 1
    ensures forall i :: 0 <= i < |mem| ==>
      CreateSubWrite(mem, p, gen, k).0[i] ==
        if mem[i].id == p.id then mem[i].(subTodos := mem[i].subTodos + [SubTodo(gen(k), "", false)])
        else mem[i]
  {
  }

  class Card {
    const todo: Todo
    const loggedInUser: Option<string>
    /** `editingSubTodo`: typed texts by `EditKey`. */
    var editing: map<string, string>
    const store: Store

    constructor (todo: Todo, loggedInUser: Option<string>, store: Store)
      ensures this.todo == todo && this.loggedInUser == loggedInUser && this.store == store
      ensures editing == map[]
    {
      this.todo, this.loggedInUser, this.store := todo, loggedInUser, store;
      editing := map[];
    }

    /** The value the sub-todo's text field shows: the typed text if there
        is one, else the sub-todo's own text. */
    function ShownSubText(sub: SubTodo): (s: string)
      reads this
      ensures EditKey(todo.id, sub.id) in editing ==> s == editing[EditKey(todo.id, sub.id)]
      ensures EditKey(todo.id, sub.id) !in editing ==> s == sub.text
    {
      var key := EditKey(todo.id, sub.id);
      if key in editing then editing[key] else sub.text
    }

    /** `TodoCard_handleUpdateSubTodoText`: with a truthy user, remembers
        the typed text and saves the card's todo with that sub-todo's text
        replaced; without one, does nothing. */
    method UpdateSubTodoText(subId: string, newText: string)
      modifies this`editing, store, store.storage, store.ids
      ensures TruthyOpt(loggedInUser) ==>
        && editing == old(editing)[EditKey(todo.id, subId) := newText]
        && store.Settled(old(store.storage.users), old(store.ids.drawn), old(store.todos), loggedInUser.value,
                         ReplaceById(old(store.todos), todo.id, WithSubText(todo, subId, newText)))
      ensures !TruthyOpt(loggedInUser) ==> editing == old(editing) && unchanged(store, store.storage, store.ids)
      ensures store.storage.loggedIn == old(store.storage.loggedIn)
    {
      if TruthyOpt(loggedInUser) {
        editing := editing[EditKey(todo.id, subId) := newText];
        store.UpdateTodo(loggedInUser.value, WithSubText(todo, subId, newText));
      }
    }

    /** The store state `TodoCard_handleCreateSubTodo` leaves: after a
        storage failure the list and users are as before (one id was
        drawn); otherwise storage holds `CreateSubWrite`'s list for the
        user and memory its loaded copy. */
    ghost predicate SubCreated(users0: Users, drawn0: nat, todos0: seq<Todo>)
      reads this, store, store.storage, store.ids
    {
      if !TruthyOpt(loggedInUser) then
        store.storage.users == users0 && store.ids.drawn == drawn0 && store.todos == todos0
      else
        && !store.isLoading
        && var w := CreateSubWrite(todos0, todo, store.ids.oracle, drawn0);
           if store.storage.writeFailure.Some? then
             && store.error == store.storage.writeFailure
             && store.todos == todos0 && store.storage.users == users0 && store.ids.drawn == drawn0 + 1
           else
             && store.error == None
             && store.storage.users == WithTodos(users0, loggedInUser.value, w.0)
             && (store.todos, store.ids.drawn) == Loaded(w.0, store.ids.oracle, w.1)
    }

    /** `TodoCard_handleCreateSubTodo` on the card's todo. */
    method CreateSubTodo()
      modifies store, store.storage, store.ids
      ensures SubCreated(old(store.storage.users), old(store.ids.drawn), old(store.todos))
      ensures !TruthyOpt(loggedInUser) ==> unchanged(store, store.storage, store.ids)
      ensures store.storage.loggedIn == old(store.storage.loggedIn)
    {
      if TruthyOpt(loggedInUser) {
        if todo.isCompleted {
          ReopenAndAddSub(loggedInUser.value);
        } else {
          store.AddSubTodo(loggedInUser.value, todo.id, "");
        }
      }
    }

    /** The completed-payload branch of `TodoCard_handleCreateSubTodo`:
        save the todo reopened, then add the sub-todo. */
    method ReopenAndAddSub(user: string)
      requires loggedInUser == Some(user) && user != "" && todo.isCompleted
      modifies store, store.storage, store.ids
      ensures SubCreated(old(store.storage.users), old(store.ids.drawn), old(store.todos))
      ensures store.storage.loggedIn == old(store.storage.loggedIn)
    {
      ghost var users0, drawn0, todos0 := store.storage.users, store.ids.drawn, store.todos;
      ghost var gen := store.ids.oracle;
      ghost var replaced := ReplaceById(todos0, todo.id, todo.(isCompleted := false));
      store.UpdateTodo(user, todo.(isCompleted := false));
      assert store.Settled(users0, drawn0, todos0, user, replaced);
      ghost var users1, drawn1, todos1 := store.storage.users, store.ids.drawn, store.todos;
      ghost var added := AddSub(todos1, todo.id, SubTodo(gen(drawn1), "", false));
      store.AddSubTodo(user, todo.id, "");
      assert store.Settled(users1, drawn1 + 1, todos1, user, added);
      if store.storage.writeFailure.None? {
        assert (todos1, drawn1) == Loaded(replaced, gen, drawn0);
        assert CreateSubWrite(todos0, todo, gen, drawn0) == (added, drawn1 + 1);
        SaveTwice(users0, user, replaced, added);
      }
    }

    /** The main checkbox: with a truthy user, sets the todo's flag (and
        its sub-todos') to the new checked state. */
    method ToggleMainCheckbox(checked: bool)
      modifies store, store.storage, store.ids
      ensures TruthyOpt(loggedInUser) ==>
        store.Settled(old(store.storage.users), old(store.ids.drawn), old(store.todos), loggedInUser.value,
                      ToggleMain(old(store.todos), todo.id, checked))
      ensures !TruthyOpt(loggedInUser) ==> unchanged(store, store.storage, store.ids)
      ensures store.storage.loggedIn == old(store.storage.loggedIn)
    {
      if TruthyOpt(loggedInUser) {
        store.ToggleMainTodoCompletion(loggedInUser.value, todo.id, checked);
      }
    }

    /** A sub-todo's checkbox: with a truthy user, sets that sub-todo's flag. */
    method ToggleSubCheckbox(sub: SubTodo, checked: bool)
      modifies store, store.storage, store.ids
      ensures TruthyOpt(loggedInUser) ==>
        store.Settled(old(store.storage.users), old(store.ids.drawn), old(store.todos), loggedInUser.value,
                      ToggleSub(old(store.todos), todo.id, sub.id, checked))
      ensures !TruthyOpt(loggedInUser) ==> unchanged(store, store.storage, store.ids)
      ensures store.storage.loggedIn == old(store.storage.loggedIn)
    {
      if TruthyOpt(loggedInUser) {
        store.ToggleSubTodoCompletion(loggedInUser.value, todo.id, sub.id, checked);
      }
    }

    /** Leaving a sub-todo's text field: the typed text is dropped only when
        the field's value differs from the sub-todo's own text. */
    method SubBlur(sub: SubTodo, value: string)
      modifies this`editing
      ensures value != sub.text ==> editing == old(editing) - {EditKey(todo.id, sub.id)} && ShownSubText(sub) == sub.text
      ensures value == sub.text ==> editing == old(editing)
    {
      if value != sub.text {
        editing := editing - {EditKey(todo.id, sub.id)};
      }
    }

    /** The payload of the menu's Delete item. */
    method DeleteMenuClick() returns (p: DeletePayload)
      ensures p == MainPayload(todo.id, todo.text)
      ensures ConfirmDescription(Some(p)) == "Are you sure want to delete " + todo.text + "?"
    {
      p := MainPayload(todo.id, todo.text);
    }

    /** The payload of a sub-todo's delete button; the confirmation then
        names the sub-todo, even when its text is empty. */
    method SubDeleteClick(sub: SubTodo) returns (p: DeletePayload)
      ensures p == SubPayload(todo.id, todo.text, sub.id, sub.text)
      ensures ConfirmDescription(Some(p)) == "Are you sure want to delete " + sub.text + "?"
    {
      p := SubPayload(todo.id, todo.text, sub.id, sub.text);
    }
  }
}
