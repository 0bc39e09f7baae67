/** src/modules/todo/MainPage.tsx: the todo page's own state (the session
    user, the create/edit dialog, the delete confirmation) and its handlers,
    which delegate to the todo and auth stores. */
module MainPage {
  import opened Types
  import opened StorageService
  import opened TodoList
  import opened TodoStore
  import opened AuthStore
  import opened TodoModal

  // ---------------------------------------------------------------------
  // The two sections of the page

  /** `notCheckedTodos`: the open todos, in list order. */
  function NotChecked(todos: seq<Todo>): (r: seq<Todo>)
    ensures forall t :: multiset(r)[t] == if t.isCompleted then 0 else multiset(todos)[t]
    ensures IsSubsequence(r, todos)
  {
    Filter(todos, (t: Todo) => !t.isCompleted)
  }

  /** `checkedTodos`: the completed todos, in list order. */
  function Checked(todos: seq<Todo>): (r: seq<Todo>)
    ensures forall t :: multiset(r)[t] == if t.isCompleted then multiset(todos)[t] else 0
    ensures IsSubsequence(r, todos)
  {
    Filter(todos, (t: Todo) => t.isCompleted)
  }

  /** Every todo is shown exactly once: the two sections split the list. */
  lemma PartitionByCompletion(todos: seq<Todo>)
    ensures multiset(NotChecked(todos)) + multiset(Checked(todos)) == multiset(todos)
    ensures |NotChecked(todos)| + |Checked(todos)| == |todos|
    ensures forall i :: 0 <= i < |NotChecked(todos)| ==> !NotChecked(todos)[i].isCompleted
    ensures forall i :: 0 <= i < |Checked(todos)| ==> Checked(todos)[i].isCompleted
  {
    var a, b := NotChecked(todos), Checked(todos);
    assert multiset(a) + multiset(b) == multiset(todos) by {
      forall t ensures (multiset(a) + multiset(b))[t] == multiset(todos)[t] {
      }
    }
    assert |multiset(a) + multiset(b)| == |multiset(todos)|;
    forall i | 0 <= i < |a| ensures !a[i].isCompleted {
      assert a[i] in multiset(a);
    }
    forall i | 0 <= i < |b| ensures b[i].isCompleted {
      assert b[i] in multiset(b);
    }
  }

  /** Keeping the order of some elements of an ordered list keeps it ordered. */
  lemma {:induction false} SubsequenceKeepsOrder(a: seq<Todo>, b: seq<Todo>)
    requires IsSubsequence(a, b) && DisplayOrdered(b)
    ensures DisplayOrdered(a)
    decreases |b|
  {
    if a != [] {
      assert DisplayOrdered(b[1..]) by {
        forall i, j | 0 <= i < j < |b[1..]| ensures Precedes(b[1..][i], b[1..][j]) {
          assert b[1..][i] == b[i + 1] && b[1..][j] == b[j + 1];
        }
      }
      if a[0] == b[0] && IsSubsequence(a[1..], b[1..]) {
        SubsequenceKeepsOrder(a[1..], b[1..]);
        SubsequenceMembers(a[1..], b[1..]);
        forall i, j | 0 <= i < j < |a| ensures Precedes(a[i], a[j]) {
          assert a[j] == a[1..][j - 1];
          if i == 0 {
            assert a[j] in b[1..];
            var m :| 0 <= m < |b[1..]| && b[1..][m] == a[j];
            assert b[m + 1] == a[j];
          } else {
            assert a[i] == a[1..][i - 1];
          }
        }
      } else {
        SubsequenceKeepsOrder(a, b[1..]);
      }
    }
  }

  /** On a loaded list, the open section runs by ascending due date and the
      completed section by descending due date. */
  lemma SectionsOrdered(todos: seq<Todo>)
    requires DisplayOrdered(todos)
    ensures forall i, j :: 0 <= i < j < |NotChecked(todos)| ==>
      NotChecked(todos)[i].dueDate <= NotChecked(todos)[j].dueDate
    ensures forall i, j :: 0 <= i < j < |Checked(todos)| ==>
      Checked(todos)[i].dueDate >= Checked(todos)[j].dueDate
  {
    PartitionByCompletion(todos);
    SubsequenceKeepsOrder(NotChecked(todos), todos);
    SubsequenceKeepsOrder(Checked(todos), todos);
    DisplayOrderMeaning(NotChecked(todos));
    DisplayOrderMeaning(Checked(todos));
  }

  // ---------------------------------------------------------------------
  // The delete confirmation

  /** The name in the confirmation text, `subTodoText ?? mainTodoText ?? ""`:
      `??` skips only a missing value, so an empty sub-todo text is shown
      as it is rather than falling back to the main text. */
  function DeleteSubject(item: Option<DeletePayload>): (s: string)
    ensures item.None? ==> s == ""
    ensures item.Some? && item.value.SubPayload? ==> s == item.value.subTodoText
    ensures item.Some? && item.value.MainPayload? ==> s == item.value.mainTodoText
  {
    match item
    case None => ""
    case Some(MainPayload(_, mainText)) => mainText
    case Some(SubPayload(_, _, _, subText)) => subText
  }

  /** The dialog's description. */
  function ConfirmDescription(item: Option<DeletePayload>): (d: string)
    ensures |d| == |DeleteSubject(item)| + 29
    ensures d[..28] == "Are you sure want to delete " && d[28..|d| - 1] == DeleteSubject(item)
    ensures d[|d| - 1] == '?'
  {
    "Are you sure want to delete " + DeleteSubject(item) + "?"
  }

  /** The dialog text tells payloads apart exactly as their subjects do:
      two payloads get the same description iff they name the same text. */
  lemma ConfirmNamesSubject(a: Option<DeletePayload>, b: Option<DeletePayload>)
    ensures ConfirmDescription(a) == ConfirmDescription(b) <==> DeleteSubject(a) == DeleteSubject(b)
  {
    if ConfirmDescription(a) == ConfirmDescription(b) {
      var d := ConfirmDescription(a);
      assert DeleteSubject(a) == d[28..|d| - 1];
      assert DeleteSubject(b) == ConfirmDescription(b)[28..|ConfirmDescription(b)| - 1];
    }
  }

  // ---------------------------------------------------------------------
  // The page

  class Page {
    var loggedInUser: Option<string>
    var isModalOpen: bool
    var editingTodo: Option<Todo>
    var openConfirmDialog: bool
    var itemToDelete: Option<DeletePayload>
    /** The route last passed to `navigate`, if any. */
    var navigatedTo: Option<string>
    const store: Store
    const auth: Auth

    /** The page's initial state. Both stores sit on the one browser storage. */
    constructor (store: Store, auth: Auth)
      requires store.storage == auth.storage
      ensures loggedInUser == None && !isModalOpen && editingTodo == None
      ensures !openConfirmDialog && itemToDelete == None && navigatedTo == None
      ensures this.store == store && this.auth == auth
      ensures this.store.storage == this.auth.storage
    {
      loggedInUser, isModalOpen, editingTodo := None, false, None;
      openConfirmDialog, itemToDelete, navigatedTo := false, None, None;
      this.store, this.auth := store, auth;
    }

    /** The mount effect: a truthy stored session user becomes the page's
        user and their todos are loaded; otherwise the page redirects to
        the login route. */
    method Mount()
      modifies this`loggedInUser, this`navigatedTo, store, store.ids
      ensures TruthyOpt(old(store.storage.loggedIn)) ==>
        && loggedInUser == old(store.storage.loggedIn) && navigatedTo == old(navigatedTo)
        && !store.isLoading && store.error == None
        && (store.todos, store.ids.drawn) ==
             Loaded(TodosOf(store.storage.users, loggedInUser.value), store.ids.oracle, old(store.ids.drawn))
      ensures !TruthyOpt(old(store.storage.loggedIn)) ==>
        && navigatedTo == Some("/login") && loggedInUser == old(loggedInUser)
        && unchanged(store, store.ids)
    {
      var user := store.storage.loggedIn;
      if TruthyOpt(user) {
        loggedInUser := user;
        store.LoadTodos(user.value);
      } else {
        navigatedTo := Some("/login");
      }
    }

    /** `mainPage_handleLogout`: ends the session and goes to the login route. */
    method HandleLogout()
      modifies this`navigatedTo, auth, auth.storage
      ensures auth.storage.loggedIn == None && !auth.isAuthenticated
      ensures auth.error == None && auth.isLoading == old(auth.isLoading)
      ensures auth.storage.users == old(auth.storage.users)
      ensures navigatedTo == Some("/login")
    {
      auth.Logout();
      navigatedTo := Some("/login");
    }

    /** A logout is seen by the next mount: the page goes to the login
        route and no todos are loaded. */
    method LogoutThenMount()
      requires store.storage == auth.storage
      modifies this`loggedInUser, this`navigatedTo, auth, auth.storage, store, store.ids
      ensures auth.storage.loggedIn == None && !auth.isAuthenticated
      ensures navigatedTo == Some("/login") && loggedInUser == old(loggedInUser)
      ensures store.todos == old(store.todos)
    {
      HandleLogout();
      Mount();
    }

    /** `mainPage_handleOpenAddModal`. */
    method HandleOpenAddModal()
      modifies this`editingTodo, this`isModalOpen
      ensures editingTodo == None && isModalOpen
    {
      editingTodo, isModalOpen := None, true;
    }

    /** `mainPage_handleOpenEditModal`. */
    method HandleOpenEditModal(todo: Todo)
      modifies this`editingTodo, this`isModalOpen
      ensures editingTodo == Some(todo) && isModalOpen
    {
      editingTodo, isModalOpen := Some(todo), true;
    }

    /** `mainPage_handleCloseModal`. */
    method HandleCloseModal()
      modifies this`editingTodo, this`isModalOpen
      ensures editingTodo == None && !isModalOpen
    {
      isModalOpen, editingTodo := false, None;
    }

    /** The dialog the page renders while `isModalOpen`: it saves under
        `loggedInUser ?? ""` and edits `editingTodo`. */
    method RenderModal() returns (m: Modal)
      requires isModalOpen
      ensures fresh(m)
      ensures m.userId == (if loggedInUser.Some? then loggedInUser.value else "")
      ensures m.todoToEdit == editingTodo && m.store == store
    {
      m := new Modal(if loggedInUser.Some? then loggedInUser.value else "", editingTodo, store);
    }

    /** `mainPage_handleDeleteClick`: remembers the payload and opens the dialog. */
    method HandleDeleteClick(payload: DeletePayload)
      modifies this`itemToDelete, this`openConfirmDialog
      ensures itemToDelete == Some(payload) && openConfirmDialog
    {
      itemToDelete, openConfirmDialog := Some(payload), true;
    }

    /** `mainPage_handleCloseConfirmDialog`. */
    method HandleCloseConfirmDialog()
      modifies this`itemToDelete, this`openConfirmDialog
      ensures itemToDelete == None && !openConfirmDialog
    {
      openConfirmDialog, itemToDelete := false, None;
    }

    /** The store state `mainPage_handleConfirmDelete` leaves, given the
        session user and the remembered payload: a main payload deletes the
        todo, a sub payload the sub-todo; without a truthy user or a payload
        nothing is deleted. */
    ghost predicate Deleted(users0: Users, drawn0: nat, todos0: seq<Todo>,
                            user: Option<string>, item: Option<DeletePayload>)
      reads store, store.storage, store.ids
    {
      if !TruthyOpt(user) || item.None? then
        store.storage.users == users0 && store.ids.drawn == drawn0 && store.todos == todos0
      else
        match item.value
        case MainPayload(id, _) =>
          store.Settled(users0, drawn0, todos0, user.value, RemoveById(todos0, id))
        case SubPayload(id, _, subId, _) =>
          store.Settled(users0, drawn0, todos0, user.value, DeleteSub(todos0, id, subId))
    }

    /** `mainPage_handleConfirmDelete`: deletes what the payload names, then
        closes the dialog either way. */
    method HandleConfirmDelete()
      modifies this`itemToDelete, this`openConfirmDialog, store, store.storage, store.ids
      ensures Deleted(old(store.storage.users), old(store.ids.drawn), old(store.todos),
                      old(loggedInUser), old(itemToDelete))
      ensures !TruthyOpt(old(loggedInUser)) || old(itemToDelete).None? ==> unchanged(store, store.storage, store.ids)
      ensures store.storage.loggedIn == old(store.storage.loggedIn)
      ensures itemToDelete == None && !openConfirmDialog
    {
      if TruthyOpt(loggedInUser) && itemToDelete.Some? {
        match itemToDelete.value
        case MainPayload(id, _) =>
          store.DeleteTodo(loggedInUser.value, id);
        case SubPayload(id, _, subId, _) =>
          store.DeleteSubTodo(loggedInUser.value, id, subId);
      }
      HandleCloseConfirmDialog();
    }
  }
}
