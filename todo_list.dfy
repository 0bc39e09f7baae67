/** The list computations of src/core/hooks/todoStore.ts: the load-time
    id fill and sort, and the map/filter step of every action. The store
    itself (its fields, storage writes and reloads) is module TodoStore. */
module TodoList {
  import opened Types
  import opened StorageService

  // ---------------------------------------------------------------------
  // Load ordering

  /** The comparator handed to `Array.prototype.sort` on load. */
  function Compare(a: Todo, b: Todo): int {
    if a.isCompleted == b.isCompleted then
      (if a.isCompleted then b.dueDate - a.dueDate else a.dueDate - b.dueDate)
    else if a.isCompleted then 1 else -1
  }

  /** The sort may leave `a` before `b`. */
  predicate Precedes(a: Todo, b: Todo) {
    Compare(a, b) <= 0
  }

  /** Any two elements are in an order the comparator accepts. */
  ghost predicate DisplayOrdered(s: seq<Todo>) {
    forall i, j :: 0 <= i < j < |s| ==> Precedes(s[i], s[j])
  }

  /** The comparator is a total preorder, which is what a sort needs. */
  lemma PrecedesTotalPreorder(a: Todo, b: Todo, c: Todo)
    ensures Precedes(a, b) || Precedes(b, a)
    ensures Precedes(a, b) && Precedes(b, c) ==> Precedes(a, c)
  {
  }

  /** What the order means for the list shown: incomplete todos first, in
      ascending due date, then complete todos in descending due date. */
  lemma DisplayOrderMeaning(s: seq<Todo>)
    ensures DisplayOrdered(s) <==>
      && (forall i, j :: 0 <= i < j < |s| && s[i].isCompleted ==> s[j].isCompleted)
      && (forall i, j :: 0 <= i < j < |s| && !s[i].isCompleted && !s[j].isCompleted ==> s[i].dueDate <= s[j].dueDate)
      && (forall i, j :: 0 <= i < j < |s| && s[i].isCompleted && s[j].isCompleted ==> s[i].dueDate >= s[j].dueDate)
  {
  }

  /** Places `x` before the first element it may precede: an element equal
      to it under the comparator stays after it, which keeps the sort stable. */
  function Insert(x: Todo, s: seq<Todo>): (r: seq<Todo>)
    ensures |r| == |s| + 1
  {
    if s == [] then [x]
    else if Precedes(x, s[0]) then [x] + s
    else [s[0]] + Insert(x, s[1..])
  }

  /** Inserting into an ordered list adds exactly `x` and keeps the order. */
  lemma {:induction false} InsertProperties(x: Todo, s: seq<Todo>)
    requires DisplayOrdered(s)
    ensures multiset(Insert(x, s)) == multiset(s) + multiset{x}
    ensures DisplayOrdered(Insert(x, s))
    decreases |s|
  {
    if s == [] {
    } else if Precedes(x, s[0]) {
      assert forall j :: 0 <= j < |s| ==> Precedes(x, s[j]) by {
        forall j | 0 <= j < |s| ensures Precedes(x, s[j]) {
          PrecedesTotalPreorder(x, s[0], s[j]);
        }
      }
    } else {
      var rest := Insert(x, s[1..]);
      assert DisplayOrdered(s[1..]) by {
        forall i, j | 0 <= i < j < |s[1..]| ensures Precedes(s[1..][i], s[1..][j]) {
          assert s[1..][i] == s[i + 1] && s[1..][j] == s[j + 1];
        }
      }
      InsertProperties(x, s[1..]);
      assert s == [s[0]] + s[1..];
      PrecedesTotalPreorder(x, s[0], x);
      assert forall k :: 0 <= k < |rest| ==> Precedes(s[0], rest[k]) by {
        forall k | 0 <= k < |rest| ensures Precedes(s[0], rest[k]) {
          assert rest[k] in multiset(rest);
          if rest[k] != x {
            assert rest[k] in multiset(s[1..]);
            var j :| 0 <= j < |s[1..]| && s[1..][j] == rest[k];
            assert s[1 + j] == rest[k];
          }
        }
      }
      assert Insert(x, s) == [s[0]] + rest;
    }
  }

  /** The sort of `todoStore_loadTodos`: a stable insertion sort. */
  function SortForDisplay(s: seq<Todo>): (r: seq<Todo>)
    ensures |r| == |s|
  {
    if s == [] then [] else Insert(s[0], SortForDisplay(s[1..]))
  }

  /** The sort returns a permutation of its input, in display order. */
  lemma {:induction false} SortProperties(s: seq<Todo>)
    ensures multiset(SortForDisplay(s)) == multiset(s)
    ensures DisplayOrdered(SortForDisplay(s))
    decreases |s|
  {
    if s != [] {
      SortProperties(s[1..]);
      InsertProperties(s[0], SortForDisplay(s[1..]));
      assert s == [s[0]] + s[1..];
    }
  }

  // ---------------------------------------------------------------------
  // Load-time identifier fill

  /** `filled` is `original` with an empty id replaced by a non-empty one. */
  predicate SubIdFilled(filled: SubTodo, original: SubTodo) {
    && filled.text == original.text
    && filled.isCompleted == original.isCompleted
    && filled.id != ""
    && (original.id != "" ==> filled.id == original.id)
  }

  /** `filled` is `original` with only sub-todo ids filled in. */
  predicate TodoIdsFilled(filled: Todo, original: Todo) {
    && filled == original.(subTodos := filled.subTodos)
    && |filled.subTodos| == |original.subTodos|
    && forall j :: 0 <= j < |filled.subTodos| ==> SubIdFilled(filled.subTodos[j], original.subTodos[j])
  }

  /** Every sub-todo of every todo has a non-empty id. */
  predicate AllSubIdsSet(ts: seq<Todo>) {
    forall i, j :: 0 <= i < |ts| && 0 <= j < |ts[i].subTodos| ==> ts[i].subTodos[j].id != ""
  }

  /** `sub.id || localStorage_generateUniqueId()` over a sub-todo list,
      drawing identifiers `gen(k)`, `gen(k + 1)`, ... left to right.
      Returns the new list and the next draw number. */
  function FillSubIds(subs: seq<SubTodo>, gen: IdOracle, k: nat): (r: (seq<SubTodo>, nat))
    ensures |r.0| == |subs| && k <= r.1
    decreases |subs|
  {
    if subs == [] then ([], k)
    else
      var first := if subs[0].id == "" then subs[0].(id := gen(k)) else subs[0];
      var k1 := if subs[0].id == "" then k + 1 else k;
      var rest := FillSubIds(subs[1..], gen, k1);
      ([first] + rest.0, rest.1)
  }

  /** Each sub-todo keeps its text and flag and ends with a non-empty id,
      its own when it had one; a list with every id set is left alone. */
  lemma {:induction false} FillSubIdsProperties(subs: seq<SubTodo>, gen: IdOracle, k: nat)
    ensures forall j :: 0 <= j < |subs| ==> SubIdFilled(FillSubIds(subs, gen, k).0[j], subs[j])
    ensures (forall j :: 0 <= j < |subs| ==> subs[j].id != "") ==> FillSubIds(subs, gen, k) == (subs, k)
    decreases |subs|
  {
    if subs != [] {
      var k1 := if subs[0].id == "" then k + 1 else k;
      FillSubIdsProperties(subs[1..], gen, k1);
      assert subs == [subs[0]] + subs[1..];
    }
  }

  /** The id-filling map of `todoStore_loadTodos` over the whole list. */
  function FillIds(ts: seq<Todo>, gen: IdOracle, k: nat): (r: (seq<Todo>, nat))
    ensures |r.0| == |ts| && k <= r.1
    decreases |ts|
  {
    if ts == [] then ([], k)
    else
      var subs := FillSubIds(ts[0].subTodos, gen, k);
      var rest := FillIds(ts[1..], gen, subs.1);
      ([ts[0].(subTodos := subs.0)] + rest.0, rest.1)
  }

  /** Each todo is filled in place; a list with every sub-todo id set is
      left alone and draws nothing. */
  lemma {:induction false} FillIdsProperties(ts: seq<Todo>, gen: IdOracle, k: nat)
    ensures forall i :: 0 <= i < |ts| ==> TodoIdsFilled(FillIds(ts, gen, k).0[i], ts[i])
    ensures AllSubIdsSet(ts) ==> FillIds(ts, gen, k) == (ts, k)
    decreases |ts|
  {
    if ts != [] {
      var subs := FillSubIds(ts[0].subTodos, gen, k);
      FillSubIdsProperties(ts[0].subTodos, gen, k);
      FillIdsProperties(ts[1..], gen, subs.1);
      assert ts == [ts[0]] + ts[1..];
      assert AllSubIdsSet(ts) ==> AllSubIdsSet(ts[1..]) by {
        if AllSubIdsSet(ts) {
          forall i, j | 0 <= i < |ts[1..]| && 0 <= j < |ts[1..][i].subTodos|
            ensures ts[1..][i].subTodos[j].id != ""
          {
            assert ts[1..][i] == ts[i + 1];
          }
        }
      }
    }
  }

  /** The in-memory list `todoStore_loadTodos` builds from a stored list,
      with the next draw number. */
  function Loaded(stored: seq<Todo>, gen: IdOracle, k: nat): (seq<Todo>, nat) {
    var filled := FillIds(stored, gen, k);
    (SortForDisplay(filled.0), filled.1)
  }

  /** Load sorts the id-filled list: a permutation of it, in display order,
      with every sub-todo id set; when no id was missing it is a
      permutation of the stored list itself and draws nothing. */
  lemma {:induction false} LoadedProperties(stored: seq<Todo>, gen: IdOracle, k: nat)
    ensures |Loaded(stored, gen, k).0| == |stored|
    ensures DisplayOrdered(Loaded(stored, gen, k).0)
    ensures multiset(Loaded(stored, gen, k).0) == multiset(FillIds(stored, gen, k).0)
    ensures AllSubIdsSet(Loaded(stored, gen, k).0)
    ensures AllSubIdsSet(stored) ==>
      multiset(Loaded(stored, gen, k).0) == multiset(stored) && Loaded(stored, gen, k).1 == k
  {
    var filled := FillIds(stored, gen, k).0;
    var r := Loaded(stored, gen, k).0;
    FillIdsProperties(stored, gen, k);
    SortProperties(filled);
    forall i, j | 0 <= i < |r| && 0 <= j < |r[i].subTodos| ensures r[i].subTodos[j].id != "" {
      assert r[i] in multiset(filled);
      var m :| 0 <= m < |filled| && filled[m] == r[i];
      assert TodoIdsFilled(filled[m], stored[m]);
    }
  }

  /** A user without stored todos loads as an empty list and draws nothing. */
  lemma LoadedEmpty(gen: IdOracle, k: nat)
    ensures Loaded([], gen, k) == ([], k)
  {
  }

  /** Every loaded todo is a stored todo with at most its empty sub-todo
      ids filled in. */
  lemma LoadedFromStored(stored: seq<Todo>, gen: IdOracle, k: nat, x: Todo)
    requires x in Loaded(stored, gen, k).0
    ensures exists i :: 0 <= i < |stored| && TodoIdsFilled(x, stored[i])
  {
    var filled := FillIds(stored, gen, k).0;
    FillIdsProperties(stored, gen, k);
    SortProperties(filled);
    assert x in multiset(Loaded(stored, gen, k).0);
    assert x in multiset(filled);
    var m :| 0 <= m < |filled| && filled[m] == x;
    assert TodoIdsFilled(x, stored[m]);
  }

  // ---------------------------------------------------------------------
  // The list each action computes before saving

  /** The record `todoStore_addTodo` appends. */
  function NewTodo(id: string, userId: string, text: string, dueDate: int, now: int): (t: Todo)
    ensures t.id == id && t.userId == userId && t.text == text && t.dueDate == dueDate
    ensures !t.isCompleted && t.subTodos == [] && t.createdAt == now
  {
    Todo(id, userId, text, dueDate, false, [], now)
  }

  /** `todoStore_updateTodo` (matching `updated.id`) and
      `todoStore_updateSubTodo` (matching `id`): every todo with the id is
      replaced by `updated`, the rest stay, the length is kept. */
  function ReplaceById(ts: seq<Todo>, id: string, updated: Todo): (r: seq<Todo>)
    ensures |r| == |ts|
    ensures forall i :: 0 <= i < |ts| && ts[i].id == id ==> r[i] == updated
    ensures forall i :: 0 <= i < |ts| && ts[i].id != id ==> r[i] == ts[i]
    ensures (forall i :: 0 <= i < |ts| ==> ts[i].id != id) ==> r == ts
  {
    seq(|ts|, i requires 0 <= i < |ts| => if ts[i].id == id then updated else ts[i])
  }

  /** `todoStore_deleteTodo`: exactly the todos with another id remain, in order. */
  function RemoveById(ts: seq<Todo>, id: string): (r: seq<Todo>)
    ensures forall t :: multiset(r)[t] == if t.id == id then 0 else multiset(ts)[t]
    ensures forall i :: 0 <= i < |r| ==> r[i].id != id
    ensures IsSubsequence(r, ts)
    ensures (forall i :: 0 <= i < |ts| ==> ts[i].id != id) ==> r == ts
  {
    var r := Filter(ts, (t: Todo) => t.id != id);
    assert (forall i :: 0 <= i < |ts| ==> ts[i].id != id) ==> r == ts by {
      if forall i :: 0 <= i < |ts| ==> ts[i].id != id {
        FilterAll(ts, (t: Todo) => t.id != id);
      }
    }
    r
  }

  /** A filter that keeps everything is the identity. */
  lemma {:induction false} FilterAll<T(!new)>(s: seq<T>, p: T -> bool)
    requires forall i :: 0 <= i < |s| ==> p(s[i])
    ensures Filter(s, p) == s
    decreases |s|
  {
    if s != [] {
      FilterAll(s[1..], p);
    }
  }

  /** Every sub-todo flag set to `c`. */
  function SetAllSubs(subs: seq<SubTodo>, c: bool): (r: seq<SubTodo>)
    ensures |r| == |subs|
    ensures forall j :: 0 <= j < |subs| ==> r[j] == subs[j].(isCompleted := c)
  {
    seq(|subs|, j requires 0 <= j < |subs| => subs[j].(isCompleted := c))
  }

  /** `todoStore_toggleMainTodoCompletion`: a todo with the id gets flag `c`
      and so does each of its sub-todos; nothing else changes. */
  function ToggleMain(ts: seq<Todo>, id: string, c: bool): (r: seq<Todo>)
    ensures |r| == |ts|
    ensures forall i :: 0 <= i < |ts| && ts[i].id == id ==>
      && r[i].isCompleted == c
      && r[i] == ts[i].(isCompleted := c, subTodos := r[i].subTodos)
      && |r[i].subTodos| == |ts[i].subTodos|
      && forall j :: 0 <= j < |r[i].subTodos| ==> r[i].subTodos[j] == ts[i].subTodos[j].(isCompleted := c)
    ensures forall i :: 0 <= i < |ts| && ts[i].id != id ==> r[i] == ts[i]
  {
    seq(|ts|, i requires 0 <= i < |ts| =>
      if ts[i].id == id then ts[i].(isCompleted := c, subTodos := SetAllSubs(ts[i].subTodos, c)) else ts[i])
  }

  /** `every(sub => sub.isCompleted)`. */
  predicate AllDone(subs: seq<SubTodo>) {
    forall j :: 0 <= j < |subs| ==> subs[j].isCompleted
  }

  /** `some(sub => !sub.isCompleted)`. */
  predicate AnyOpen(subs: seq<SubTodo>) {
    exists j :: 0 <= j < |subs| && !subs[j].isCompleted
  }

  /** `Array.prototype.find` by id: the first index with the id, or |ts|. */
  function FirstIndex(ts: seq<Todo>, id: string): (r: nat)
    ensures r <= |ts|
    ensures r < |ts| ==> ts[r].id == id
    ensures forall i :: 0 <= i < r ==> ts[i].id != id
    decreases |ts|
  {
    if ts == [] then 0
    else if ts[0].id == id then 0
    else 1 + FirstIndex(ts[1..], id)
  }

  /** Sub-todos with the id get flag `c`. */
  function SetSub(subs: seq<SubTodo>, subId: string, c: bool): (r: seq<SubTodo>)
    ensures |r| == |subs|
    ensures forall j :: 0 <= j < |subs| ==>
      r[j] == if subs[j].id == subId then subs[j].(isCompleted := c) else subs[j]
  {
    seq(|subs|, j requires 0 <= j < |subs| => if subs[j].id == subId then subs[j].(isCompleted := c) else subs[j])
  }

  /** The parent flag after a sub-todo toggle, as the source assigns it:
      set when all are done and it was clear, cleared when one is open and
      it was set. It always ends as "every sub-todo is done". */
  function CascadedFlag(t: Todo): (b: bool)
    ensures b == AllDone(t.subTodos)
  {
    var all := AllDone(t.subTodos);
    var any := AnyOpen(t.subTodos);
    if all && !t.isCompleted then true
    else if any && t.isCompleted then false
    else t.isCompleted
  }

  /** The sub-todo toggle applied to every todo with the id (the map step). */
  function ToggleSubEverywhere(ts: seq<Todo>, id: string, subId: string, c: bool): (r: seq<Todo>)
    ensures |r| == |ts|
    ensures forall i :: 0 <= i < |ts| ==>
      r[i] == if ts[i].id == id then ts[i].(subTodos := SetSub(ts[i].subTodos, subId, c)) else ts[i]
  {
    seq(|ts|, i requires 0 <= i < |ts| =>
      if ts[i].id == id then ts[i].(subTodos := SetSub(ts[i].subTodos, subId, c)) else ts[i])
  }

  /** `todoStore_toggleSubTodoCompletion`: matching sub-todos of matching
      todos get flag `c`; the first matching todo (the one `find` returns)
      then has its flag cascaded to "all sub-todos done". */
  function ToggleSub(ts: seq<Todo>, id: string, subId: string, c: bool): (r: seq<Todo>)
    ensures |r| == |ts|
    ensures forall i :: 0 <= i < |ts| && ts[i].id != id ==> r[i] == ts[i]
    ensures forall i :: 0 <= i < |ts| && ts[i].id == id ==>
      && r[i] == ts[i].(isCompleted := r[i].isCompleted, subTodos := r[i].subTodos)
      && |r[i].subTodos| == |ts[i].subTodos|
      && forall j :: 0 <= j < |ts[i].subTodos| ==>
           r[i].subTodos[j] == if ts[i].subTodos[j].id == subId then ts[i].subTodos[j].(isCompleted := c)
                               else ts[i].subTodos[j]
    ensures FirstIndex(ts, id) < |ts| ==>
      r[FirstIndex(ts, id)].isCompleted == AllDone(r[FirstIndex(ts, id)].subTodos)
    ensures forall i :: FirstIndex(ts, id) < i < |ts| ==> r[i].isCompleted == ts[i].isCompleted
  {
    var mapped := ToggleSubEverywhere(ts, id, subId, c);
    var f := FirstIndex(mapped, id);
    if f == |mapped| then mapped
    else mapped[f := mapped[f].(isCompleted := CascadedFlag(mapped[f]))]
  }

  /** Toggling a sub-todo of a todo without sub-todos completes that todo. */
  lemma ToggleSubOnEmptyCompletes(ts: seq<Todo>, id: string, subId: string, c: bool)
    requires FirstIndex(ts, id) < |ts| && ts[FirstIndex(ts, id)].subTodos == []
    ensures ToggleSub(ts, id, subId, c)[FirstIndex(ts, id)].isCompleted
  {
    var f := FirstIndex(ts, id);
    assert ToggleSub(ts, id, subId, c)[f].subTodos == [];
  }

  /** `todoStore_addSubTodo`: `sub` appended to each todo with the id;
      the parent flag is left as it was. */
  function AddSub(ts: seq<Todo>, id: string, sub: SubTodo): (r: seq<Todo>)
    ensures |r| == |ts|
    ensures forall i :: 0 <= i < |ts| && ts[i].id == id ==> r[i] == ts[i].(subTodos := ts[i].subTodos + [sub])
    ensures forall i :: 0 <= i < |ts| && ts[i].id != id ==> r[i] == ts[i]
  {
    seq(|ts|, i requires 0 <= i < |ts| =>
      if ts[i].id == id then ts[i].(subTodos := ts[i].subTodos + [sub]) else ts[i])
  }

  /** Sub-todos other than `subId`, in order. */
  function RemoveSub(subs: seq<SubTodo>, subId: string): (r: seq<SubTodo>)
    ensures forall s :: multiset(r)[s] == if s.id == subId then 0 else multiset(subs)[s]
    ensures forall j :: 0 <= j < |r| ==> r[j].id != subId
    ensures IsSubsequence(r, subs)
  {
    Filter(subs, (s: SubTodo) => s.id != subId)
  }

  /** The sub-todo removal applied to every todo with the id (the map step). */
  function RemoveSubEverywhere(ts: seq<Todo>, id: string, subId: string): (r: seq<Todo>)
    ensures |r| == |ts|
    ensures forall i :: 0 <= i < |ts| ==>
      r[i] == if ts[i].id == id then ts[i].(subTodos := RemoveSub(ts[i].subTodos, subId)) else ts[i]
  {
    seq(|ts|, i requires 0 <= i < |ts| =>
      if ts[i].id == id then ts[i].(subTodos := RemoveSub(ts[i].subTodos, subId)) else ts[i])
  }

  /** `todoStore_deleteSubTodo`: sub-todos with `subId` leave every todo
      with the id; the first such todo is cleared when a remaining
      sub-todo is open and otherwise keeps its flag, so a deletion never
      completes a parent. */
  function DeleteSub(ts: seq<Todo>, id: string, subId: string): (r: seq<Todo>)
    ensures |r| == |ts|
    ensures forall i :: 0 <= i < |ts| && ts[i].id != id ==> r[i] == ts[i]
    ensures forall i :: 0 <= i < |ts| && ts[i].id == id ==>
      && r[i] == ts[i].(isCompleted := r[i].isCompleted, subTodos := RemoveSub(ts[i].subTodos, subId))
      && (r[i].isCompleted ==> ts[i].isCompleted)
    ensures FirstIndex(ts, id) < |ts| ==>
      r[FirstIndex(ts, id)].isCompleted ==
        (ts[FirstIndex(ts, id)].isCompleted && !AnyOpen(r[FirstIndex(ts, id)].subTodos))
    ensures forall i :: FirstIndex(ts, id) < i < |ts| ==> r[i].isCompleted == ts[i].isCompleted
  {
    var mapped := RemoveSubEverywhere(ts, id, subId);
    var f := FirstIndex(mapped, id);
    assert f == FirstIndex(ts, id) by { FirstIndexOfMapped(ts, mapped, id); }
    if f < |mapped| && AnyOpen(mapped[f].subTodos) && mapped[f].isCompleted then
      mapped[f := mapped[f].(isCompleted := false)]
    else mapped
  }

  /** A map that keeps every id keeps the first match. */
  lemma FirstIndexOfMapped(ts: seq<Todo>, mapped: seq<Todo>, id: string)
    requires |mapped| == |ts|
    requires forall i :: 0 <= i < |ts| ==> mapped[i].id == ts[i].id
    ensures FirstIndex(mapped, id) == FirstIndex(ts, id)
  {
  }

  // The list computed by each action, started from a list whose sub-todo
  // ids are all set, still has them all set, so the reload after the
  // action draws no identifier.

  lemma AppendKeepsIdsSet(ts: seq<Todo>, t: Todo)
    requires AllSubIdsSet(ts) && t.subTodos == []
    ensures AllSubIdsSet(ts + [t])
  {
    var appended := ts + [t];
    forall i, j | 0 <= i < |appended| && 0 <= j < |appended[i].subTodos|
      ensures appended[i].subTodos[j].id != ""
    {
      assert appended[i] == ts[i];
    }
  }

  lemma ReplaceKeepsIdsSet(ts: seq<Todo>, id: string, t: Todo)
    requires AllSubIdsSet(ts) && AllSubIdsSet([t])
    ensures AllSubIdsSet(ReplaceById(ts, id, t))
  {
    var replaced := ReplaceById(ts, id, t);
    forall i, j | 0 <= i < |replaced| && 0 <= j < |replaced[i].subTodos|
      ensures replaced[i].subTodos[j].id != ""
    {
      if ts[i].id == id {
        assert [t][0].subTodos[j].id != "";
      }
    }
  }

  lemma RemoveKeepsIdsSet(ts: seq<Todo>, id: string)
    requires AllSubIdsSet(ts)
    ensures AllSubIdsSet(RemoveById(ts, id))
  {
    var removed := RemoveById(ts, id);
    forall i, j | 0 <= i < |removed| && 0 <= j < |removed[i].subTodos|
      ensures removed[i].subTodos[j].id != ""
    {
      assert removed[i] in multiset(removed);
      var m :| 0 <= m < |ts| && ts[m] == removed[i];
    }
  }

  lemma ToggleKeepsIdsSet(ts: seq<Todo>, id: string, subId: string, c: bool)
    requires AllSubIdsSet(ts)
    ensures AllSubIdsSet(ToggleMain(ts, id, c))
    ensures AllSubIdsSet(ToggleSub(ts, id, subId, c))
  {
  }

  lemma AddSubKeepsIdsSet(ts: seq<Todo>, id: string, sub: SubTodo)
    requires AllSubIdsSet(ts) && sub.id != ""
    ensures AllSubIdsSet(AddSub(ts, id, sub))
  {
    var added := AddSub(ts, id, sub);
    forall i, j | 0 <= i < |added| && 0 <= j < |added[i].subTodos|
      ensures added[i].subTodos[j].id != ""
    {
      if ts[i].id == id && j == |ts[i].subTodos| {
        assert added[i].subTodos[j] == sub;
      }
    }
  }

  /** Pruning a sub-todo list keeps only ids it already had. */
  lemma RemoveSubKeepsIds(subs: seq<SubTodo>, subId: string)
    requires forall j :: 0 <= j < |subs| ==> subs[j].id != ""
    ensures forall j :: 0 <= j < |RemoveSub(subs, subId)| ==> RemoveSub(subs, subId)[j].id != ""
  {
    var kept := RemoveSub(subs, subId);
    SubsequenceMembers(kept, subs);
    forall j | 0 <= j < |kept| ensures kept[j].id != "" {
      assert kept[j] in subs;
    }
  }

  lemma DeleteSubKeepsIdsSet(ts: seq<Todo>, id: string, subId: string)
    requires AllSubIdsSet(ts)
    ensures AllSubIdsSet(DeleteSub(ts, id, subId))
  {
    var deleted := DeleteSub(ts, id, subId);
    forall i | 0 <= i < |deleted| && ts[i].id == id
      ensures forall j :: 0 <= j < |deleted[i].subTodos| ==> deleted[i].subTodos[j].id != ""
    {
      RemoveSubKeepsIds(ts[i].subTodos, subId);
    }
  }
}
