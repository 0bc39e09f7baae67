/** Record shapes of src/core/types (todo.type.ts, user.type.ts) and the
    sequence helpers that the list transforms share. */
module Types {

  datatype Option<+T> = None | Some(value: T)

  /** A sub-todo: an identifier, a text and a completion flag. */
  datatype SubTodo = SubTodo(id: string, text: string, isCompleted: bool)

  /** A todo. Due date and creation time are timestamps (the source keeps
      ISO-8601 strings and parses them only to compare them). */
  datatype Todo = Todo(
    id: string,
    userId: string,
    text: string,
    dueDate: int,
    isCompleted: bool,
    subTodos: seq<SubTodo>,
    createdAt: int)

  /** A user record; `password` is absent for accounts created by a save
      for an unknown email, and "" for Google accounts. */
  datatype User = User(email: string, password: Option<string>)

  /** The value stored under one email in the users dictionary. */
  datatype UserData = UserData(user: User, todos: seq<Todo>)

  /** What a delete button hands to the confirmation dialog. The source's
      payload is one record with optional sub-todo fields; it is only ever
      built in the two shapes below. */
  datatype DeletePayload =
    | MainPayload(mainTodoId: string, mainTodoText: string)
    | SubPayload(mainTodoId: string, mainTodoText: string, subTodoId: string, subTodoText: string)

  /** JavaScript truthiness of a string. */
  predicate Truthy(s: string) { s != "" }

  /** JavaScript truthiness of a nullable string. */
  predicate TruthyOpt(s: Option<string>) { s.Some? && s.value != "" }

  /** `a` is `b` with some elements dropped, order kept. */
  ghost predicate IsSubsequence<T>(a: seq<T>, b: seq<T>)
    decreases |b|
  {
    a == [] ||
    (b != [] && ((a[0] == b[0] && IsSubsequence(a[1..], b[1..])) || IsSubsequence(a, b[1..])))
  }

  /** `Array.prototype.filter`: keeps exactly the elements satisfying `p`,
      every occurrence of them, in their original order. */
  function Filter<T(!new)>(s: seq<T>, p: T -> bool): (r: seq<T>)
    ensures forall x :: multiset(r)[x] == if p(x) then multiset(s)[x] else 0
    ensures forall i :: 0 <= i < |r| ==> p(r[i])
    ensures IsSubsequence(r, s)
    ensures |r| <= |s|
  {
    if s == [] then []
    else
      var rest := Filter(s[1..], p);
      assert s == [s[0]] + s[1..];
      if p(s[0]) then [s[0]] + rest else rest
  }

  /** Every element of a subsequence occurs in the whole. */
  lemma {:induction false} SubsequenceMembers<T>(a: seq<T>, b: seq<T>)
    requires IsSubsequence(a, b)
    ensures forall x :: x in a ==> x in b
    decreases |b|
  {
    if a != [] {
      if a[0] == b[0] && IsSubsequence(a[1..], b[1..]) {
        SubsequenceMembers(a[1..], b[1..]);
        assert a == [a[0]] + a[1..];
      } else {
        SubsequenceMembers(a, b[1..]);
      }
      assert b == [b[0]] + b[1..];
    }
  }
}
