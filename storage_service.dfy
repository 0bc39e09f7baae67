/** src/core/services/localStorageService.ts: browser storage seen as two
    slots, the users dictionary (key "todo_app_users") and the logged-in
    email (key "todo_app_logged_in_user"). JSON encoding is left out: what
    is written is what is read back. */
module StorageService {
  import opened Types

  /** The users dictionary: email to user record and todo list. */
  type Users = map<string, UserData>

  /** Every entry is filed under its own user's email. */
  ghost predicate KeysMatch(users: Users) {
    forall e :: e in users ==> users[e].user.email == e
  }

  /** A password counts only when it is present and non-empty. */
  predicate HasPassword(u: User) {
    TruthyOpt(u.password)
  }

  // ---------------------------------------------------------------------
  // Lookups

  /** `localStorage_getUserTodos`: the stored list, or [] for an unknown user. */
  function TodosOf(users: Users, userId: string): (r: seq<Todo>)
    ensures userId in users ==> r == users[userId].todos
    ensures userId !in users ==> r == []
  {
    if userId in users then users[userId].todos else []
  }

  /** `localStorage_isUserExists`: the stored user record, if any. */
  function UserOf(users: Users, email: string): (r: Option<User>)
    ensures r.Some? <==> email in users
    ensures r.Some? ==> r.value == users[email].user
  {
    if email in users then Some(users[email].user) else None
  }

  /** `localStorage_isValidateUser`: the stored user when its password is
      present, non-empty and equal to the attempt; otherwise nothing. */
  function ValidatedUser(users: Users, email: string, attempt: string): (r: Option<User>)
    ensures r.Some? <==>
      email in users && HasPassword(users[email].user) && users[email].user.password.value == attempt
    ensures r.Some? ==> r.value == users[email].user
  {
    if email !in users then None
    else
      var stored := users[email].user;
      if !HasPassword(stored) then
        // Google account: never validates, whatever the attempt
        None
      else if stored.password.value == attempt then Some(stored)
      else None
  }

  // ---------------------------------------------------------------------
  // Read-modify-write of the users dictionary

  /** The dictionary `localStorage_saveUserTodos` writes back. */
  function WithTodos(users: Users, userId: string, todos: seq<Todo>): Users {
    if userId in users then users[userId := users[userId].(todos := todos)]
    else users[userId := UserData(User(userId, None), todos)]
  }

  /** The dictionary `localStorage_addUser` leaves: unchanged when the email is taken. */
  function WithUser(users: Users, u: User): Users {
    if u.email in users then users else users[u.email := UserData(u, [])]
  }

  /** Saving replaces only that user's todos: an existing record keeps its
      user, an unknown email gets a passwordless record, others stay. */
  lemma SaveTodosEffect(users: Users, userId: string, todos: seq<Todo>)
    ensures WithTodos(users, userId, todos).Keys == users.Keys + {userId}
    ensures WithTodos(users, userId, todos)[userId].todos == todos
    ensures WithTodos(users, userId, todos)[userId].user ==
      if userId in users then users[userId].user else User(userId, None)
    ensures forall e :: e in users && e != userId ==> WithTodos(users, userId, todos)[e] == users[e]
  {
  }

  /** Save then read is exact, and other users read what they read before. */
  lemma SaveThenRead(users: Users, userId: string, todos: seq<Todo>, other: string)
    ensures TodosOf(WithTodos(users, userId, todos), userId) == todos
    ensures other != userId ==> TodosOf(WithTodos(users, userId, todos), other) == TodosOf(users, other)
    ensures UserOf(WithTodos(users, userId, todos), userId).Some?
  {
  }

  /** A second save of the same user overrides the first. */
  lemma SaveTwice(users: Users, userId: string, first: seq<Todo>, second: seq<Todo>)
    ensures WithTodos(WithTodos(users, userId, first), userId, second) == WithTodos(users, userId, second)
  {
  }

  /** Adding a user never touches an existing entry, creates an empty list
      otherwise, and is idempotent. */
  lemma AddUserEffect(users: Users, u: User)
    ensures u.email in users ==> WithUser(users, u) == users
    ensures u.email !in users ==> WithUser(users, u) == users[u.email := UserData(u, [])]
    ensures WithUser(WithUser(users, u), u) == WithUser(users, u)
    ensures UserOf(WithUser(users, u), u.email).Some?
  {
  }

  /** Both writers keep every entry filed under its own email. */
  lemma WritesKeepKeysMatch(users: Users, userId: string, todos: seq<Todo>, u: User)
    requires KeysMatch(users)
    ensures KeysMatch(WithTodos(users, userId, todos))
    ensures KeysMatch(WithUser(users, u))
  {
  }

  // ---------------------------------------------------------------------
  // The browser storage

  /** The two storage slots. `writeFailure` stands for the browser refusing
      writes (a full quota): when it holds a message, every `setItem`
      throws an error carrying it and stores nothing. */
  class Storage {
    var users: Users
    var loggedIn: Option<string>
    const writeFailure: Option<string>

    /** An empty storage. */
    constructor (writeFailure: Option<string>)
      ensures users == map[] && loggedIn == None && this.writeFailure == writeFailure
    {
      users := map[];
      loggedIn := None;
      this.writeFailure := writeFailure;
    }

    /** `localStorage_saveUserTodos`; `err` is the exception it throws. */
    method SaveUserTodos(userId: string, todos: seq<Todo>) returns (err: Option<string>)
      modifies this`users
      ensures err == writeFailure
      ensures users == if err.Some? then old(users) else WithTodos(old(users), userId, todos)
    {
      err := writeFailure;
      if err.None? {
        users := WithTodos(users, userId, todos);
      }
    }

    /** `localStorage_addUser`: writes only when the email is absent, so
        only then can it throw. */
    method AddUser(u: User) returns (err: Option<string>)
      modifies this`users
      ensures err == if u.email in old(users) then None else writeFailure
      ensures users == if err.Some? then old(users) else WithUser(old(users), u)
    {
      err := None;
      if u.email !in users {
        err := writeFailure;
        if err.None? {
          users := users[u.email := UserData(u, [])];
        }
      }
    }

    /** `localStorage_loginUser`. */
    method LoginUser(email: string) returns (err: Option<string>)
      modifies this`loggedIn
      ensures err == writeFailure
      ensures loggedIn == if err.Some? then old(loggedIn) else Some(email)
    {
      err := writeFailure;
      if err.None? {
        loggedIn := Some(email);
      }
    }

    /** `localStorage_logoutUser`: removing a key never fails. */
    method LogoutUser()
      modifies this`loggedIn
      ensures loggedIn == None
    {
      loggedIn := None;
    }
  }

  // ---------------------------------------------------------------------
  // Identifiers

  /** `localStorage_generateUniqueId` mixes the clock and `Math.random`;
      here it is an oracle: the n-th draw is `oracle(n)`, some non-empty
      string. Nothing is claimed about uniqueness. */
  type IdOracle = f: nat -> string | forall n :: f(n) != "" witness (n: nat) => "0"

  class IdSource {
    const oracle: IdOracle
    var drawn: nat

    constructor (oracle: IdOracle)
      ensures this.oracle == oracle && drawn == 0
    {
      this.oracle := oracle;
      drawn := 0;
    }

    /** Draws the next identifier. */
    method Next() returns (id: string)
      modifies this`drawn
      ensures id == oracle(old(drawn)) && id != ""
      ensures drawn == old(drawn) + 1
    {
      id := oracle(drawn);
      drawn := drawn + 1;
    }
  }
}
