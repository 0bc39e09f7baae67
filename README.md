# todo-offline-web in Dafny

A model of the data and decision logic of todo-offline-web, an offline
todo list that runs in the browser. Each user's todos, and their
sub-todos, live in browser storage under the user's email. The model
covers:

- a todo store that reloads and re-sorts the list after every change;
- the storage service underneath it;
- an auth store;
- the handlers and validators of the todo page, the todo card, the
  create/edit dialog, the login form, the route guard and the due-date
  badge.

Rendering, routing and the date library are not modelled (see "Left out").

Each module models one source file, or part of one:

| module | file | source | form |
|---|---|---|---|
| `Types` | `types.dfy` | `src/core/types/todo.type.ts`, `src/core/types/user.type.ts` | record datatypes; `Filter` and `IsSubsequence` |
| `StorageService` | `storage_service.dfy` | `src/core/services/localStorageService.ts` | pure lookups and writes over the users map; class `Storage` holds the two storage slots; class `IdSource` is the id generator as an oracle |
| `TodoList` | `todo_list.dfy` | `src/core/hooks/todoStore.ts` (the list transforms) | the pure list transforms of the store: load sort, id fill, and the map/filter of each action |
| `TodoStore` | `todo_store.dfy` | `src/core/hooks/todoStore.ts` (the store state) | class `Store`: every action computes, saves, then reloads |
| `AuthStore` | `auth_store.dfy` | `src/core/hooks/authStore.ts` | class `Auth` |
| `TodoModal` | `todo_modal.dfy` | `src/core/components/todo/TodoModal.tsx` | `trim`, both validators, class `Modal` |
| `MainPage` | `main_page.dfy` | `src/modules/todo/MainPage.tsx` | the two page sections, the delete text, class `Page` |
| `TodoCard` | `todo_card.dfy` | `src/core/components/todo/TodoCard.tsx` | the create-sub-todo write, class `Card` |
| `LoginPage` | `login_page.dfy` | `src/modules/auth/LoginPage.tsx` | the sign-in decision, class `Form` |
| `AuthRouteWrapper` | `auth_route_wrapper.dfy` | `src/core/components/auth/AuthRouteWrapper.tsx` | the render decision and the mount effect |
| `TodoBadge` | `todo_badge.dfy` | `src/core/components/todo/TodoBadge.tsx` | the label and colour |

Conventions of the model:

- Due dates and creation times are integer timestamps.
- "Now", "the start of the current hour", the badge's `isToday`/`isPast`
  and its formatted date are all inputs.
- `EMAIL_REGEX` is an abstract predicate; `src/core/constants` is not part
  of this model.
- Storage can fail on write. `Storage.writeFailure` stands for a browser
  that refuses writes: when it holds a message, every `setItem` throws it
  and stores nothing.
- The route a page navigates to is recorded in a `navigatedTo` field.
- A thrown storage exception that a handler does not catch is the `err`
  result of that handler.

## Model

| member | source | states |
|---|---|---|
| `StorageService.TodosOf` | src/core/services/localStorageService.ts:21-24 | a known user reads their stored list; an unknown user reads `[]` |
| `StorageService.UserOf` | src/core/services/localStorageService.ts:59-63 | a record is returned exactly when the email has an entry, and it is that entry's user |
| `StorageService.ValidatedUser` | src/core/services/localStorageService.ts:65-90 | a user is returned iff the entry exists, its password is present and non-empty, and it equals the attempt; a Google account never validates |
| `StorageService.SaveTodosEffect` | src/core/services/localStorageService.ts:26-37 | a save adds only the user's key and replaces only their todos; an existing record keeps its user, an unknown email gets a passwordless record, every other entry stays |
| `StorageService.SaveThenRead` | src/core/services/localStorageService.ts:21-37 | reading after a save returns exactly the saved list; other users read what they read before |
| `StorageService.SaveTwice` | src/core/services/localStorageService.ts:26-37 | a second save of the same user overrides the first |
| `StorageService.AddUserEffect` | src/core/services/localStorageService.ts:39-45 | an existing email is left untouched; an absent one gets the record with an empty list; adding is idempotent and the user then exists |
| `StorageService.WritesKeepKeysMatch` | src/core/services/localStorageService.ts:26-45 | both writers keep every entry filed under its own email |
| `StorageService.Storage.SaveUserTodos` | src/core/services/localStorageService.ts:26-37 | the users slot becomes the saved dictionary, or on a write failure stays as it was and the failure is returned |
| `StorageService.Storage.AddUser` | src/core/services/localStorageService.ts:39-45 | writes, and so can fail, only when the email is absent |
| `StorageService.Storage.LoginUser` | src/core/services/localStorageService.ts:47-49 | after success the logged-in slot holds the email |
| `StorageService.Storage.LogoutUser` | src/core/services/localStorageService.ts:51-57 | the logged-in slot is then empty |
| `StorageService.IdSource.Next` | src/core/services/localStorageService.ts:92-96 | a draw returns the oracle's next non-empty id and advances the draw count by one |
| `TodoList.PrecedesTotalPreorder` | src/core/hooks/todoStore.ts:28-35 | the load comparator is total and transitive |
| `TodoList.DisplayOrderMeaning` | src/core/hooks/todoStore.ts:28-35 | comparator order means: incomplete before complete, incomplete by ascending due date, complete by descending due date (both directions) |
| `TodoList.InsertProperties` | src/core/hooks/todoStore.ts:28-35 | insertion into an ordered list adds exactly the element and keeps the order |
| `TodoList.SortProperties` | src/core/hooks/todoStore.ts:20-35 | the load sort returns a permutation of its input in display order |
| `TodoList.FillSubIdsProperties` | src/core/hooks/todoStore.ts:23-26 | every sub-todo keeps its text and flag and ends with a non-empty id, its own when it had one; a list with all ids set is returned unchanged |
| `TodoList.FillIdsProperties` | src/core/hooks/todoStore.ts:20-27 | each todo changes only in its sub-todo ids; a list with all ids set is unchanged and draws nothing |
| `TodoList.LoadedProperties` | src/core/hooks/todoStore.ts:16-36 | the loaded list keeps the length, is in display order, is a permutation of the id-filled list and has every sub-todo id set; with no id missing it is a permutation of the stored list and draws nothing |
| `TodoList.LoadedEmpty` | src/core/hooks/todoStore.ts:19-26 | a user with no todos loads as `[]` |
| `TodoList.LoadedFromStored` | src/core/hooks/todoStore.ts:20-35 | every loaded todo is a stored todo with at most its empty sub-todo ids filled |
| `TodoList.NewTodo` | src/core/hooks/todoStore.ts:50-58 | the new todo has the drawn id, the user, text and due date, is incomplete, has no sub-todos and carries the creation time |
| `TodoList.ReplaceById` | src/core/hooks/todoStore.ts:76-78 | every todo with the id becomes the update, the rest stay, the length is kept, an unknown id changes nothing |
| `TodoList.RemoveById` | src/core/hooks/todoStore.ts:95 | exactly the todos with other ids remain, in order, with their multiplicities; an unknown id changes nothing |
| `TodoList.SetAllSubs` | src/core/hooks/todoStore.ts:121 | every sub-todo gets the flag and nothing else changes |
| `TodoList.ToggleMain` | src/core/hooks/todoStore.ts:116-124 | a todo with the id gets the flag, as does each of its sub-todos, and nothing else of it changes; other todos stay |
| `TodoList.FirstIndex` | src/core/hooks/todoStore.ts:157 | the first index holding the id, or the length when none does |
| `TodoList.SetSub` | src/core/hooks/todoStore.ts:150-152 | only sub-todos with the id get the flag |
| `TodoList.CascadedFlag` | src/core/hooks/todoStore.ts:157-171 | the flag set, cleared or kept by the two in-place assignments always equals "every sub-todo is done" |
| `TodoList.ToggleSubEverywhere` | src/core/hooks/todoStore.ts:146-155 | matching sub-todos of matching todos get the flag; everything else is kept |
| `TodoList.ToggleSub` | src/core/hooks/todoStore.ts:146-171 | only matching sub-todos change; the first todo with the id ends completed iff all its sub-todos are done; later duplicates and other todos keep their flags |
| `TodoList.ToggleSubOnEmptyCompletes` | src/core/hooks/todoStore.ts:157-171 | a sub-todo toggle on a todo without sub-todos completes it |
| `TodoList.AddSub` | src/core/hooks/todoStore.ts:193-202 | the sub-todo is appended to each todo with the id without touching its flag; others stay |
| `TodoList.RemoveSub` | src/core/hooks/todoStore.ts:250 | exactly the sub-todos with other ids remain, in order |
| `TodoList.RemoveSubEverywhere` | src/core/hooks/todoStore.ts:246-253 | the removal applies to every todo with the id and nothing else |
| `TodoList.DeleteSub` | src/core/hooks/todoStore.ts:246-262 | sub-todos with the id leave each matching todo; the first match is cleared iff it was complete and a remaining sub-todo is open; a deletion never completes a todo |
| `TodoList.AppendKeepsIdsSet` | src/core/hooks/todoStore.ts:59 | appending a todo without sub-todos keeps every sub-todo id set |
| `TodoList.ReplaceKeepsIdsSet` | src/core/hooks/todoStore.ts:76-78 | a replacement whose sub-todo ids are set keeps every id set |
| `TodoList.RemoveKeepsIdsSet` | src/core/hooks/todoStore.ts:95 | deleting todos keeps every sub-todo id set |
| `TodoList.ToggleKeepsIdsSet` | src/core/hooks/todoStore.ts:116-171 | both toggles keep every sub-todo id set |
| `TodoList.AddSubKeepsIdsSet` | src/core/hooks/todoStore.ts:193-202 | appending a sub-todo with an id keeps every id set |
| `TodoList.RemoveSubKeepsIds` | src/core/hooks/todoStore.ts:250 | filtering sub-todos keeps only ids it already had |
| `TodoList.DeleteSubKeepsIdsSet` | src/core/hooks/todoStore.ts:246-262 | deleting a sub-todo keeps every sub-todo id set |
| `TodoStore.Store.constructor` | src/core/hooks/todoStore.ts:12-14 | the store starts empty, not loading, without an error, and in a valid state |
| `TodoStore.Store.LoadTodos` | src/core/hooks/todoStore.ts:16-44 | memory becomes the loaded copy of the user's stored list; loading ends with no error; the list is in display order with all sub-todo ids set; storage is not written |
| `TodoStore.Store.Commit` | src/core/hooks/todoStore.ts:60-62 | a save then a reload: on failure the error is set and nothing else moves; otherwise storage holds the list for the user and memory its loaded copy; validity is preserved |
| `TodoStore.Store.AddTodo` | src/core/hooks/todoStore.ts:46-70 | the list saved is the old list plus exactly one new todo; validity is preserved |
| `TodoStore.Store.UpdateTodo` | src/core/hooks/todoStore.ts:72-89 | the list saved has the todos with the update's id replaced |
| `TodoStore.Store.DeleteTodo` | src/core/hooks/todoStore.ts:91-106 | the list saved has the todos with the id removed |
| `TodoStore.Store.ToggleMainTodoCompletion` | src/core/hooks/todoStore.ts:108-135 | the list saved is the main toggle of the old one |
| `TodoStore.Store.ToggleSubTodoCompletion` | src/core/hooks/todoStore.ts:137-183 | the list saved is the sub-todo toggle with the parent's flag cascaded |
| `TodoStore.Store.AddSubTodo` | src/core/hooks/todoStore.ts:185-213 | the list saved has one new incomplete sub-todo, with a freshly drawn id, appended to the matching todos |
| `TodoStore.Store.UpdateSubTodo` | src/core/hooks/todoStore.ts:215-236 | the list saved has the todos with the given id replaced by the update |
| `TodoStore.Store.DeleteSubTodo` | src/core/hooks/todoStore.ts:238-274 | the list saved is the sub-todo deletion with the parent's flag cleared when needed |
| `TodoStore.AddTodoMemory` | src/core/hooks/todoStore.ts:46-62 | after a successful add, memory holds the old todos and exactly the new one, and the reload draws no id |
| `TodoStore.DeleteTodoMemory` | src/core/hooks/todoStore.ts:91-98 | after a successful delete, memory is a reordering of exactly the todos with other ids, and the reload draws nothing |
| `TodoStore.ToggleMainMemory` | src/core/hooks/todoStore.ts:108-127 | after a main toggle, memory is a reordering of the toggled list and draws nothing |
| `TodoStore.ToggleSubMemory` | src/core/hooks/todoStore.ts:137-175 | after a sub-todo toggle, memory is a reordering of the toggled list and draws nothing |
| `TodoStore.AddSubMemory` | src/core/hooks/todoStore.ts:185-205 | after a sub-todo add, memory is a reordering of the extended list and draws nothing more |
| `TodoStore.DeleteSubMemory` | src/core/hooks/todoStore.ts:238-266 | after a sub-todo delete, memory is a reordering of the pruned list and draws nothing |
| `TodoStore.UnknownIdChangesNothing` | src/core/hooks/todoStore.ts:72-262 | with an id no todo has, update, delete, both toggles, sub-add and sub-delete all compute the list unchanged |
| `AuthStore.Auth.constructor` | src/core/hooks/authStore.ts:10-12 | the store starts not authenticated, loading, with no error |
| `AuthStore.Auth.InitializeAuth` | src/core/hooks/authStore.ts:14-26 | authenticated iff the stored email is truthy, so "" reads as logged out; loading ends with no error |
| `AuthStore.Auth.Login` | src/core/hooks/authStore.ts:28-31 | the email is stored and the session authenticated with no error; loading is kept; a storage exception leaves everything as it was |
| `AuthStore.Auth.Logout` | src/core/hooks/authStore.ts:33-36 | the stored email is cleared and the session is not authenticated |
| `AuthStore.LogoutThenInitialize` | src/core/hooks/authStore.ts:14-36 | a logout followed by an initialisation stays not authenticated |
| `AuthStore.LoginThenInitialize` | src/core/hooks/authStore.ts:14-31 | a successful login survives an initialisation exactly when the email is non-empty |
| `AuthRouteWrapper.RouteView` | src/core/components/auth/AuthRouteWrapper.tsx:23-62 | loading wins over everything; public-only with a session goes to `/todos`; protected without a session goes to `/login`; otherwise the children render (each case both ways) |
| `AuthRouteWrapper.PublicOnlyBeforeProtected` | src/core/components/auth/AuthRouteWrapper.tsx:23-50 | a route with both props and a session goes to `/todos`; while loading it shows the loading view |
| `AuthRouteWrapper.MountEffect` | src/core/components/auth/AuthRouteWrapper.tsx:17-21 | initialisation runs only when the store is signed out and not loading while a truthy email is stored; it then authenticates and clears the error, so a protected route renders its children; otherwise the auth state is unchanged |
| `TodoBadge.BadgeFor` | src/core/components/todo/TodoBadge.tsx:18-27 | completed shows the date in the primary colour; today wins over past and shows "Today" in the success colour; past shows "Overdue - " and the date in the error colour; future shows the date |
| `TodoBadge.BadgeColors` | src/core/components/todo/TodoBadge.tsx:18-27 | the error colour appears iff incomplete, past and not today; the success colour iff incomplete and today |
| `TodoModal.TrimStart` | src/core/components/todo/TodoModal.tsx:60 | the result is a suffix of the input, everything dropped is whitespace, and the result does not start with whitespace |
| `TodoModal.TrimEnd` | src/core/components/todo/TodoModal.tsx:60 | the result is a prefix of the input, everything dropped is whitespace, and the result does not end with whitespace |
| `TodoModal.TrimEmptyIffBlank` | src/core/components/todo/TodoModal.tsx:60 | the trimmed text is empty iff every character is ECMAScript whitespace or a line terminator |
| `TodoModal.TextError` | src/core/components/todo/TodoModal.tsx:59-66 | the text passes iff it has a non-whitespace character; otherwise the error is "Todo is required" |
| `TodoModal.DueDateError` | src/core/components/todo/TodoModal.tsx:68-84 | a missing or invalid date gives "Date Time is required"; a new todo before the start of the hour gives "Date Time must be greater then now"; an edit skips the past check (each case both ways) |
| `TodoModal.Modal.constructor` | src/core/components/todo/TodoModal.tsx:30-33 | the form starts empty with no errors |
| `TodoModal.Modal.Open` | src/core/components/todo/TodoModal.tsx:35-47 | the fields are prefilled from the edited todo or cleared, and both errors are reset |
| `TodoModal.Modal.EditText` | src/core/components/todo/TodoModal.tsx:163-166 | typing sets the text and clears its error |
| `TodoModal.Modal.PickDate` | src/core/components/todo/TodoModal.tsx:175-178 | picking sets the date and clears its error |
| `TodoModal.Modal.ValidateTodoText` | src/core/components/todo/TodoModal.tsx:59-66 | the error field becomes the text's error and the result says whether it is empty |
| `TodoModal.Modal.ValidateDueDate` | src/core/components/todo/TodoModal.tsx:68-84 | the error field becomes the date's error and the result says whether it is empty |
| `TodoModal.Modal.SaveTodo` | src/core/components/todo/TodoModal.tsx:86-98 | an edit saves the edited todo with only text (untrimmed) and due date replaced; otherwise a new todo is added |
| `TodoModal.Modal.ValidateAndSave` | src/core/components/todo/TodoModal.tsx:49-57 | both validators run and both errors are set; the todo is saved and the dialog closed iff both pass; otherwise the store is untouched |
| `MainPage.NotChecked` | src/modules/todo/MainPage.tsx:79-82 | exactly the incomplete todos, with their multiplicities, in list order |
| `MainPage.Checked` | src/modules/todo/MainPage.tsx:83-86 | exactly the complete todos, with their multiplicities, in list order |
| `MainPage.PartitionByCompletion` | src/modules/todo/MainPage.tsx:79-86 | the two sections are disjoint by flag and together are a permutation of the list |
| `MainPage.SubsequenceKeepsOrder` | src/modules/todo/MainPage.tsx:79-86 | a section of an ordered list is itself in display order |
| `MainPage.SectionsOrdered` | src/modules/todo/MainPage.tsx:79-86 | on a loaded list the open section runs by ascending due date and the completed section by descending due date |
| `MainPage.DeleteSubject` | src/modules/todo/MainPage.tsx:324-326 | a sub payload names its sub-todo's text, even when empty; a main payload names the todo's text; no payload names nothing |
| `MainPage.ConfirmNamesSubject` | src/modules/todo/MainPage.tsx:324-326 | two selections get the same confirmation text iff they name the same subject, so the dialog always names what will be deleted |
| `MainPage.Page.constructor` | src/modules/todo/MainPage.tsx:41-47 | no user, no dialog open, nothing selected; the todo and auth stores share the one browser storage |
| `MainPage.Page.Mount` | src/modules/todo/MainPage.tsx:49-57 | a truthy stored user becomes the page's user and their todos are loaded; otherwise the page goes to `/login` and the store is untouched |
| `MainPage.Page.HandleLogout` | src/modules/todo/MainPage.tsx:59-62 | the session ends with no error and the loading flag kept, users are kept, and the page goes to `/login` |
| `MainPage.Page.LogoutThenMount` | src/modules/todo/MainPage.tsx:49-62 | after a logout the next mount goes to `/login` and loads no todos |
| `MainPage.Page.HandleOpenAddModal` | src/modules/todo/MainPage.tsx:64-67 | the dialog opens with no todo to edit |
| `MainPage.Page.HandleOpenEditModal` | src/modules/todo/MainPage.tsx:69-72 | the dialog opens on the given todo |
| `MainPage.Page.HandleCloseModal` | src/modules/todo/MainPage.tsx:74-77 | the dialog closes and the edited todo is cleared |
| `MainPage.Page.RenderModal` | src/modules/todo/MainPage.tsx:310-317 | the open dialog saves under the page user or "" and edits the page's edited todo |
| `MainPage.Page.HandleDeleteClick` | src/modules/todo/MainPage.tsx:88-100 | the payload is remembered and the confirmation opens |
| `MainPage.Page.HandleCloseConfirmDialog` | src/modules/todo/MainPage.tsx:102-105 | the confirmation closes and the selection is cleared |
| `MainPage.Page.HandleConfirmDelete` | src/modules/todo/MainPage.tsx:107-126 | a main payload deletes the todo, a sub payload the sub-todo; without a truthy user or a selection the store and storage are unchanged; the logged-in slot is kept; the dialog always closes and the selection clears |
| `TodoCard.EditKeyInjective` | src/core/components/todo/TodoCard.tsx:61 | within one card, distinct sub-todos never share an editing key |
| `TodoCard.WithSubText` | src/core/components/todo/TodoCard.tsx:64-70 | only the matching sub-todos' text changes; every other field and sub-todo is kept |
| `TodoCard.CreateSubWrite` | src/core/components/todo/TodoCard.tsx:91-104 | the final write keeps the list length and draws at least one id |
| `TodoCard.CreateSubReopens` | src/core/components/todo/TodoCard.tsx:91-104 | on a completed todo the write holds it incomplete with one empty, incomplete sub-todo appended, and exactly one id is drawn |
| `TodoCard.CreateSubOnOpen` | src/core/components/todo/TodoCard.tsx:91-104 | on an open todo only the append happens: matching todos gain one empty sub-todo and keep their flag, others stay |
| `TodoCard.Card.constructor` | src/core/components/todo/TodoCard.tsx:38-40 | the editing map starts empty |
| `TodoCard.Card.ShownSubText` | src/core/components/todo/TodoCard.tsx:224-229 | the field shows the typed text under the sub-todo's key if any, else the stored text |
| `TodoCard.Card.UpdateSubTodoText` | src/core/components/todo/TodoCard.tsx:56-74 | with a truthy user the typed text is remembered and the todo saved with that sub-todo's text replaced; without one nothing changes |
| `TodoCard.Card.CreateSubTodo` | src/core/components/todo/TodoCard.tsx:91-104 | with a truthy user, storage and memory end as the create-sub-todo write and its reload; without one the store and storage are unchanged; the logged-in slot is always kept |
| `TodoCard.Card.ReopenAndAddSub` | src/core/components/todo/TodoCard.tsx:94-100 | the completed-todo branch: the reopen save then the sub-todo add leave the create-sub-todo write |
| `TodoCard.Card.ToggleMainCheckbox` | src/core/components/todo/TodoCard.tsx:123-130 | with a truthy user the main toggle is saved; without one nothing changes |
| `TodoCard.Card.ToggleSubCheckbox` | src/core/components/todo/TodoCard.tsx:211-219 | with a truthy user the sub-todo toggle is saved; without one nothing changes |
| `TodoCard.Card.SubBlur` | src/core/components/todo/TodoCard.tsx:236-244 | the typed text is dropped, and the stored text shown again, only when the field differs from the stored text |
| `TodoCard.Card.DeleteMenuClick` | src/core/components/todo/TodoCard.tsx:165-171 | the main payload carries the todo's id and text, and the confirmation names the todo |
| `TodoCard.Card.SubDeleteClick` | src/core/components/todo/TodoCard.tsx:262-270 | the sub payload carries both ids and both texts, and the confirmation names the sub-todo |
| `LoginPage.EmailError` | src/modules/auth/LoginPage.tsx:35-46 | an empty email gives "Email is required", one failing the pattern "Invalid email format", otherwise none (each case both ways) |
| `LoginPage.LoginGetsThrough` | src/modules/auth/LoginPage.tsx:53-97 | the password form registers or signs in iff the email is well formed and either unknown with a password typed or stored with exactly the typed non-empty password |
| `LoginPage.GoogleAccountsRefusePasswords` | src/modules/auth/LoginPage.tsx:77-94 | an account without a usable password never gets in through the password form |
| `LoginPage.RegisterThenSignIn` | src/modules/auth/LoginPage.tsx:64-86 | after a registration the same credentials sign in |
| `LoginPage.GoogleRegistrationThenPassword` | src/modules/auth/LoginPage.tsx:77-112 | after a Google registration the password form points to Google sign-in |
| `LoginPage.Form.constructor` | src/modules/auth/LoginPage.tsx:26-31 | the form starts empty, without messages, with the password hidden |
| `LoginPage.Form.EditEmail` | src/modules/auth/LoginPage.tsx:199-204 | typing an email clears all three messages |
| `LoginPage.Form.EditPassword` | src/modules/auth/LoginPage.tsx:219-223 | typing a password clears the password and Google messages |
| `LoginPage.Form.ToggleShowPassword` | src/modules/auth/LoginPage.tsx:48-51 | the visibility flips |
| `LoginPage.Form.ValidateEmail` | src/modules/auth/LoginPage.tsx:35-46 | the email message becomes the email's error and the result says whether it is empty |
| `LoginPage.Form.HandleLogin` | src/modules/auth/LoginPage.tsx:53-97 | each outcome sets its own message: bad email, "Password is required", "Password is Incorrect." or one of the two Google messages, with no storage change; a registration adds the user with the typed password; registration and sign-in store the session, clear the auth error and go to `/todos`; the auth loading flag is kept; a storage exception stops the handler and keeps the auth state |
| `LoginPage.Form.HandleGoogleLogin` | src/modules/auth/LoginPage.tsx:99-112 | a well-formed email is added with an empty password only if absent (an existing record is kept), signed in without a password check (auth error cleared, loading flag kept), and sent to `/todos`; a storage exception keeps the auth state; a bad email changes nothing |

## Left out

- Rendering, layout, the Material UI menu anchor (`TodoCard_handleMenuClick`/`handleMenuClose`), React hooks, re-render timing and zustand's subscriber notification are not modelled. Each handler is one method call that completes before the next.
- `TodoCard_handleEditTodo` and `TodoCard_handleDeleteTodo` only forward to the page's `handleOpenEditModal`/`handleDeleteClick` and close the menu. They are modelled by `MainPage.Page.HandleOpenEditModal`, `MainPage.Page.HandleDeleteClick` and the payload methods of `TodoCard.Card`.
- The dialog's close button and backdrop call `onClose` directly, which is `MainPage.Page.HandleCloseModal`.
- `TodoModal.Modal.ValidateAndSave` reports the `onClose()` call as its `closed` result rather than calling the page.
- Routing: `navigate` and `<Navigate>` are recorded as a target route only. The route table in `src/App.tsx` is not part of this model.
- JSON encoding and the browser `localStorage` API are not modelled. What is written is what is read back. `getItem` and `removeItem` are taken never to fail. That makes the `catch` blocks of `todoStore_loadTodos` and `authStore_initializeAuth` unreachable, so they are not modelled.
- What a write failure produces inside the browser (for example the exact quota message) is the environment's `writeFailure` value.
- `console.error` logging is not modelled.
- `StorageService.IdSource.Next`: `localStorage_generateUniqueId` mixes the clock with `Math.random`. It is an oracle of non-empty strings here, and nothing is claimed about uniqueness.
- Dates: dayjs parsing, ISO strings, time zones and `DD/MM/YYYY` formatting are not modelled (`src/core/utils/date.ts` is not part of this model). Due dates are integer timestamps and `parseISODateTime` is the identity. An unparseable stored date (NaN in the comparator) is not modelled.
- `TodoBadge.BadgeFor`: `isToday`, `isPast` and the formatted date are inputs rather than computed from the clock.
- `EMAIL_REGEX`: its definition is not part of this model, so it is an arbitrary predicate.
- The users dictionary is a plain JavaScript object, so `allUsersData[email]` also finds inherited `Object.prototype` members. The model's map has no inherited keys: emails and user ids are taken not to be `Object.prototype` property names such as `constructor` or `toString`. For such a name the source's `saveUserTodos` would write `todos` onto the inherited member and save nothing, and `addUser` would skip the insert. The model adds the entry in both cases. None of these names contains `@`, so any `EMAIL_REGEX` that requires one keeps them out of the login form, but the pattern itself is not part of this model.
- `TodoStore.Store.LoadTodos`: the sub-todo ids filled in at load are kept in memory only, as in the source. They reach storage only with the next save.
- `TodoModal.Modal.SaveTodo`: the ISO string `toISOString()` produces is the timestamp itself.
