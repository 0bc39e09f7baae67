/** src/core/components/todo/TodoModal.tsx: the create/edit dialog's form
    state, its two validators and the add-versus-update choice on save.
    The date picker's value is a timestamp, an unparseable entry, or nothing. */
module TodoModal {
  import opened Types
  import opened StorageService
  import opened TodoList
  import opened TodoStore

  const TextRequired := "Todo is required"
  const DateRequired := "Date Time is required"
  const DateInPast := "Date Time must be greater then now"

  /** The date picker's value: `null`, an invalid Dayjs, or a valid instant. */
  datatype PickedDate = NoDate | InvalidDate | Picked(at: int)

  // ---------------------------------------------------------------------
  // String.prototype.trim

  /** The characters `trim` strips: ECMAScript WhiteSpace (tab, vertical
      tab, form feed, space, no-break space, byte order mark and the
      Unicode space separators) and LineTerminator. */
  predicate IsTrimmable(c: char) {
    var n := c as int;
    || n == 0x09 || n == 0x0A || n == 0x0B || n == 0x0C || n == 0x0D || n == 0x20
    || n == 0xA0 || n == 0x1680 || (0x2000 <= n <= 0x200A) || n == 0x2028 || n == 0x2029
    || n == 0x202F || n == 0x205F || n == 0x3000 || n == 0xFEFF
  }

  /** Drops leading trimmable characters. */
  function TrimStart(s: string): (r: string)
    ensures |r| <= |s| && r == s[|s| - |r|..]
    ensures forall i :: 0 <= i < |s| - |r| ==> IsTrimmable(s[i])
    ensures r == [] || !IsTrimmable(r[0])
  {
    if s == [] || !IsTrimmable(s[0]) then s else TrimStart(s[1..])
  }

  /** Drops trailing trimmable characters. */
  function TrimEnd(s: string): (r: string)
    ensures |r| <= |s| && r == s[..|r|]
    ensures forall i :: |r| <= i < |s| ==> IsTrimmable(s[i])
    ensures r == [] || !IsTrimmable(r[|r| - 1])
  {
    if s == [] || !IsTrimmable(s[|s| - 1]) then s else TrimEnd(s[..|s| - 1])
  }

  function Trim(s: string): string {
    TrimEnd(TrimStart(s))
  }

  /** `!text.trim()` holds exactly for texts made only of trimmable characters. */
  lemma {:induction false} TrimEmptyIffBlank(s: string)
    ensures Trim(s) == "" <==> forall i :: 0 <= i < |s| ==> IsTrimmable(s[i])
  {
    var t := TrimStart(s);
    if Trim(s) == "" {
      forall i | 0 <= i < |s| ensures IsTrimmable(s[i]) {
        if i >= |s| - |t| {
          assert s[i] == t[i - (|s| - |t|)];
        }
      }
    } else {
      var r := Trim(s);
      assert r == t[..|r|];
      assert !IsTrimmable(r[0]) || |r| > 0;
      if t == [] {
      } else {
        assert !IsTrimmable(t[0]);
        assert t[0] == s[|s| - |t|];
      }
    }
  }

  // ---------------------------------------------------------------------
  // Validators

  /** The message `TodoModal_validateTodoText` leaves ("" when valid). */
  function TextError(text: string): (m: string)
    ensures m == "" || m == TextRequired
    ensures m == "" <==> exists i :: 0 <= i < |text| && !IsTrimmable(text[i])
  {
    TrimEmptyIffBlank(text);
    if Trim(text) == "" then TextRequired else ""
  }

  /** The message `TodoModal_validateDueDate` leaves ("" when valid): a
      date is required, and a new todo may not be due before the start of
      the current hour; an edited one may. */
  function DueDateError(date: PickedDate, isEditing: bool, startOfHour: int): (m: string)
    ensures m == "" <==> date.Picked? && (isEditing || date.at >= startOfHour)
    ensures m == DateRequired <==> !date.Picked?
    ensures m == DateInPast <==> date.Picked? && !isEditing && date.at < startOfHour
  {
    if !date.Picked? then DateRequired
    else if !isEditing && date.at < startOfHour then DateInPast
    else ""
  }

  // ---------------------------------------------------------------------
  // The dialog

  class Modal {
    var text: string
    var textError: string
    var dueDate: PickedDate
    var dueDateError: string
    const userId: string
    const todoToEdit: Option<Todo>
    const store: Store

    constructor (userId: string, todoToEdit: Option<Todo>, store: Store)
      ensures text == "" && textError == "" && dueDate == NoDate && dueDateError == ""
      ensures this.userId == userId && this.todoToEdit == todoToEdit && this.store == store
    {
      text, textError, dueDate, dueDateError := "", "", NoDate, "";
      this.userId, this.todoToEdit, this.store := userId, todoToEdit, store;
    }

    /** The open effect: prefill from the edited todo, or clear; reset both errors. */
    method Open()
      modifies this`text, this`dueDate, this`textError, this`dueDateError
      ensures todoToEdit.Some? ==> text == todoToEdit.value.text && dueDate == Picked(todoToEdit.value.dueDate)
      ensures todoToEdit.None? ==> text == "" && dueDate == NoDate
      ensures textError == "" && dueDateError == ""
    {
      if todoToEdit.Some? {
        text, dueDate := todoToEdit.value.text, Picked(todoToEdit.value.dueDate);
      } else {
        text, dueDate := "", NoDate;
      }
      textError, dueDateError := "", "";
    }

    /** Typing in the text field clears its error. */
    method EditText(value: string)
      modifies this`text, this`textError
      ensures text == value && textError == ""
    {
      text, textError := value, "";
    }

    /** Picking a date clears its error. */
    method PickDate(value: PickedDate)
      modifies this`dueDate, this`dueDateError
      ensures dueDate == value && dueDateError == ""
    {
      dueDate, dueDateError := value, "";
    }

    /** `TodoModal_validateTodoText`. */
    method ValidateTodoText() returns (ok: bool)
      modifies this`textError
      ensures textError == TextError(text)
      ensures ok <==> textError == ""
    {
      if Trim(text) == "" {
        textError := TextRequired;
        return false;
      }
      textError := "";
      return true;
    }

    /** `TodoModal_validateDueDate`, against the start of the current hour. */
    method ValidateDueDate(startOfHour: int) returns (ok: bool)
      modifies this`dueDateError
      ensures dueDateError == DueDateError(dueDate, todoToEdit.Some?, startOfHour)
      ensures ok <==> dueDateError == ""
    {
      if !dueDate.Picked? {
        dueDateError := DateRequired;
        return false;
      }
      if todoToEdit.None? && dueDate.at < startOfHour {
        dueDateError := DateInPast;
        return false;
      }
      dueDateError := "";
      return true;
    }

    /** The store state `TodoModal_saveTodo` leaves: an edit replaces the
        edited todo's text (untrimmed) and due date and keeps its other
        fields; a new todo is added. */
    ghost predicate Saved(users0: Users, drawn0: nat, todos0: seq<Todo>, text: string, at: int, now: int)
      reads store, store.storage, store.ids
    {
      match todoToEdit
      case Some(t) =>
        store.Settled(users0, drawn0, todos0, userId, ReplaceById(todos0, t.id, t.(text := text, dueDate := at)))
      case None =>
        store.Settled(users0, drawn0 + 1, todos0, userId,
                      todos0 + [NewTodo(store.ids.oracle(drawn0), userId, text, at, now)])
    }

    /** `TodoModal_saveTodo`; it is only called once the date is valid. */
    method SaveTodo(now: int)
      requires dueDate.Picked?
      modifies store, store.storage, store.ids
      ensures Saved(old(store.storage.users), old(store.ids.drawn), old(store.todos), text, dueDate.at, now)
      ensures store.storage.loggedIn == old(store.storage.loggedIn)
    {
      if todoToEdit.Some? {
        store.UpdateTodo(userId, todoToEdit.value.(text := text, dueDate := dueDate.at));
      } else {
        store.AddTodo(userId, text, dueDate.at, now);
      }
    }

    /** `TodoModal_validateAndSave`: both validators run (so both errors can
        show); only when both pass is the todo saved and `onClose` called,
        which `closed` reports. */
    method ValidateAndSave(startOfHour: int, now: int) returns (closed: bool)
      modifies this`textError, this`dueDateError, store, store.storage, store.ids
      ensures textError == TextError(text)
      ensures dueDateError == DueDateError(dueDate, todoToEdit.Some?, startOfHour)
      ensures closed <==> textError == "" && dueDateError == ""
      ensures closed ==> Saved(old(store.storage.users), old(store.ids.drawn), old(store.todos), text, dueDate.at, now)
      ensures !closed ==> unchanged(store, store.storage, store.ids)
      ensures store.storage.loggedIn == old(store.storage.loggedIn)
    {
      var textOk := ValidateTodoText();
      var dateOk := ValidateDueDate(startOfHour);
      closed := textOk && dateOk;
      if closed {
        SaveTodo(now);
      }
    }
  }
}
