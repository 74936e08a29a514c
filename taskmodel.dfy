/**
 * The task model (`dolist/taskmodel.py`): a task's fields, the status and
 * size validators that run when a task is built, and the update methods,
 * which change a field locally and then write it through the task's row
 * and commit, but only when the task is linked to both a row and a
 * database.
 */
module TaskModel {
  import opened Wrappers
  import opened Text
  import opened Calendar
  import opened Dependency
  import DB = Database

  // ------------------------------------------------------------- validators

  const StatusMessage: string := "Status must be one of {'new', 'in-progress', 'done', 'cancel', 'post'}"
  const SizeMessage: string := "Size must be one of: U, S, M, L (or Small, Medium, Large, Undefined)"

  predicate ValidStatus(v: string) {
    v == "new" || v == "in-progress" || v == "done" || v == "cancel" || v == "post"
  }

  /** `validate_status`: exactly the five statuses pass, unchanged. */
  function ValidateStatus(v: string): (r: Result<string>)
    ensures r.Ok? <==> ValidStatus(v)
    ensures r.Ok? ==> r.value == v
    ensures r.Err? ==> r.error == ValueError(StatusMessage)
  {
    if ValidStatus(v) then Ok(v) else Err(ValueError(StatusMessage))
  }

  predicate SizeCode(v: string) {
    v == "U" || v == "S" || v == "M" || v == "L"
  }

  /** The full size words, upper-cased, and the codes they stand for. */
  function SizeWord(up: string): Option<string> {
    if up == "SMALL" then Some("S")
    else if up == "MEDIUM" then Some("M")
    else if up == "LARGE" then Some("L")
    else if up == "UNDEFINED" then Some("U")
    else None
  }

  /** `validate_size`: empty means undefined; a code or a full word, in any letter case, is normalised. */
  function ValidateSize(v: string): (r: Result<string>)
  {
    if v == "" then Ok("U")
    else
      var up := Upper(v);
      if SizeCode(up) then Ok(up)
      else match SizeWord(up)
        case Some(code) => Ok(code)
        case None => Err(ValueError(SizeMessage))
  }

  /** A size that passes is one of U, S, M and L; a size passes exactly when it is empty, a code or a word. */
  lemma ValidateSizeRange(v: string)
    ensures ValidateSize(v).Ok? ==> SizeCode(ValidateSize(v).value)
    ensures ValidateSize(v).Ok? <==> v == "" || SizeCode(Upper(v)) || SizeWord(Upper(v)).Some?
    ensures ValidateSize(v).Err? ==> ValidateSize(v).error == ValueError(SizeMessage)
  {
  }

  lemma UpperOfUpper(s: string)
    requires forall i | 0 <= i < |s| :: !IsLowerLetter(s[i])
    ensures Upper(s) == s
  {
  }

  /** Validating a validated size gives it back unchanged. */
  lemma ValidateSizeIdempotent(v: string)
    requires ValidateSize(v).Ok?
    ensures ValidateSize(ValidateSize(v).value) == ValidateSize(v)
  {
    ValidateSizeRange(v);
    var code := ValidateSize(v).value;
    UpperOfUpper(code);
  }

  // ------------------------------------------------------------- fields

  /** The data fields of a task, as one value. */
  datatype TaskState = TaskState(
    id: Option<int>,
    name: string,
    tag: string,
    status: string,
    reminder: Option<string>,
    reminderRepeat: Option<string>,
    notes: seq<string>,
    createdOn: Instant,
    deleted: bool,
    priority: int,
    size: string)

  function OptionalText(v: Option<string>): DB.Value {
    match v
    case Some(s) => DB.VStr(s)
    case None => DB.VNone
  }

  function NotesValue(notes: seq<string>): DB.Value {
    DB.VList(seq(|notes|, i requires 0 <= i < |notes| => DB.VStr(notes[i])))
  }

  // ------------------------------------------------------------- from_row

  function Truthy(v: DB.Value): bool {
    match v
    case VNone => false
    case VBool(b) => b
    case VInt(i) => i != 0
    case VStr(s) => s != []
    case VTime(_) => true
    case VList(items) => items != []
  }

  /** `row.key` on a row: the column's value, or AttributeError when the row has no such column. */
  function Attr(data: map<string, DB.Value>, key: string): Result<DB.Value> {
    if key in data then Ok(data[key]) else Err(AttributeError(key))
  }

  /** `row.get(key, default)`. */
  function Get(data: map<string, DB.Value>, key: string, default: DB.Value): DB.Value {
    if key in data then data[key] else default
  }

  const Invalid: PyError := ValueError("validation error")

  function AsText(v: DB.Value): Result<string> {
    if v.VStr? then Ok(v.s) else Err(Invalid)
  }

  function AsOptionalText(v: DB.Value): Result<Option<string>> {
    match v
    case VNone => Ok(None)
    case VStr(s) => Ok(Some(s))
    case _ => Err(Invalid)
  }

  function AsTextList(items: seq<DB.Value>): Result<seq<string>> {
    if items == [] then Ok([])
    else
      var init :- AsTextList(items[..|items| - 1]);
      var last := items[|items| - 1];
      if last.VStr? then Ok(init + [last.s]) else Err(Invalid)
  }

  /** `row.notes or []`, then checked as a list of strings. */
  function AsNotes(v: DB.Value): Result<seq<string>> {
    if !Truthy(v) then Ok([])
    else if v.VList? then AsTextList(v.items)
    else Err(Invalid)
  }

  /**
   * `from_row`: the columns read in the order the program reads them (a
   * missing one raises AttributeError; `reminder_repeat`, `priority` and
   * `size` have defaults), then the type checks and the two validators.
   */
  function FromData(data: map<string, DB.Value>): Result<TaskState> {
    var id :- Attr(data, "id");
    var name :- Attr(data, "name");
    var tag :- Attr(data, "tag");
    var status :- Attr(data, "status");
    var reminder :- Attr(data, "reminder");
    var repeat := Get(data, "reminder_repeat", DB.VNone);
    var notes :- Attr(data, "notes");
    var createdOn :- Attr(data, "created_on");
    var deleted :- Attr(data, "deleted");
    var priority := Get(data, "priority", DB.VInt(0));
    var size := Get(data, "size", DB.VStr("U"));
    if !(id.VNone? || id.VInt?) || !createdOn.VTime? || !deleted.VBool? || !priority.VInt? then Err(Invalid)
    else
      var nameText :- AsText(name);
      var tagText :- AsText(tag);
      var statusText :- AsText(status);
      var reminderText :- AsOptionalText(reminder);
      var repeatText :- AsOptionalText(repeat);
      var noteTexts :- AsNotes(notes);
      var sizeText :- AsText(size);
      var validStatus :- ValidateStatus(statusText);
      var validSize :- ValidateSize(sizeText);
      Ok(TaskState(if id.VInt? then Some(id.i) else None, nameText, tagText, validStatus, reminderText,
        repeatText, noteTexts, createdOn.at, deleted.b, priority.i, validSize))
  }

  /** The defaults `from_row` applies: missing repeat, priority and size; None notes. */
  lemma FromDataDefaults(data: map<string, DB.Value>)
    requires FromData(data).Ok?
    ensures "reminder_repeat" !in data ==> FromData(data).value.reminderRepeat == None
    ensures "priority" !in data ==> FromData(data).value.priority == 0
    ensures "size" !in data ==> FromData(data).value.size == "U"
    ensures data["notes"] == DB.VNone ==> FromData(data).value.notes == []
  {
  }

  /** A task built from a row always has a valid status and a size code. */
  lemma FromDataValid(data: map<string, DB.Value>)
    requires FromData(data).Ok?
    ensures ValidStatus(FromData(data).value.status) && SizeCode(FromData(data).value.size)
  {
    var sizeText := AsText(Get(data, "size", DB.VStr("U"))).value;
    ValidateSizeRange(sizeText);
  }

  // ------------------------------------------------------------- the task

  /** The outcome of an update: the exception it raised, if any. */
  type Raised = Option<PyError>

  function ErrorOf<T>(r: Result<T>): Raised {
    if r.Err? then Some(r.error) else None
  }

  class Task {
    var id: Option<int>
    var name: string
    var tag: string
    var status: string
    var reminder: Option<string>
    var reminderRepeat: Option<string>
    var notes: seq<string>
    var createdOn: Instant
    var deleted: bool
    var priority: int
    var size: string
    /** `_row` and `_db`: the row the task was read from and the database it commits to. */
    const row: DB.Row?
    const db: DB.Database?

    function State(): TaskState
      reads this
    {
      TaskState(id, name, tag, status, reminder, reminderRepeat, notes, createdOn, deleted, priority, size)
    }

    constructor (s: TaskState, db: DB.Database?, row: DB.Row?)
      ensures State() == s && this.db == db && this.row == row
    {
      id, name, tag, status := s.id, s.name, s.tag, s.status;
      reminder, reminderRepeat, notes := s.reminder, s.reminderRepeat, s.notes;
      createdOn, deleted, priority, size := s.createdOn, s.deleted, s.priority, s.size;
      this.db := db;
      this.row := row;
    }

    /** `Task.from_row(db, row)`: the task read from the row, linked to both. */
    static method FromRow(db: DB.Database?, row: DB.Row) returns (r: Result<Task>)
      ensures r.Ok? <==> FromData(row.data).Ok?
      ensures r.Err? ==> r.error == FromData(row.data).error
      ensures r.Ok? ==>
        fresh(r.value) && r.value.State() == FromData(row.data).value && r.value.db == db && r.value.row == row
    {
      var s := FromData(row.data);
      if s.Err? {
        return Err(s.error);
      }
      var task := new Task(s.value, db, row);
      r := Ok(task);
    }

    /**
     * `_update_db(**fields)` has written through: when the task has both a
     * row and a database, the row took the update and a commit followed
     * unless the update raised; otherwise neither was touched.
     */
    twostate predicate Written(fields: seq<(string, DB.Value)>, new raised: Raised)
      reads this, row, db
    {
      if row != null && db != null then
        var outcome := DB.UpdateOutcome(row.bound, row.table, old(row.data), fields);
        && raised == ErrorOf(outcome)
        && row.data == (if outcome.Ok? then old(row.data) + DB.FieldsMap(fields) else old(row.data))
        && db.commits == old(db.commits) + (if outcome.Ok? then 1 else 0)
        && db.tables == old(db.tables) && db.executed == old(db.executed)
      else
        && raised.None?
        && (row != null ==> row.data == old(row.data))
        && (db != null ==> db.commits == old(db.commits) && db.tables == old(db.tables) && db.executed == old(db.executed))
    }

    /** Neither the row nor the database has changed. */
    twostate predicate Untouched()
      reads this, row, db
    {
      (row != null ==> unchanged(row)) && (db != null ==> unchanged(db))
    }

    method UpdateDb(fields: seq<(string, DB.Value)>) returns (raised: Raised)
      modifies row, db
      ensures Written(fields, raised)
    {
      raised := None;
      if row != null && db != null {
        var outcome := row.UpdateRecord(fields);
        if outcome.Err? {
          return Some(outcome.error);
        }
        db.Commit();
      }
    }

    method UpdateName(value: string) returns (raised: Raised)
      modifies this, row, db
      ensures State() == old(State()).(name := value)
      ensures Written([("name", DB.VStr(value))], raised)
    {
      name := value;
      raised := UpdateDb([("name", DB.VStr(value))]);
    }

    method UpdateTag(value: string) returns (raised: Raised)
      modifies this, row, db
      ensures State() == old(State()).(tag := value)
      ensures Written([("tag", DB.VStr(value))], raised)
    {
      tag := value;
      raised := UpdateDb([("tag", DB.VStr(value))]);
    }

    /** `update_status`: the assignment is not validated; any text is stored. */
    method UpdateStatus(value: string) returns (raised: Raised)
      modifies this, row, db
      ensures State() == old(State()).(status := value)
      ensures Written([("status", DB.VStr(value))], raised)
    {
      status := value;
      raised := UpdateDb([("status", DB.VStr(value))]);
    }

    method UpdateReminder(value: Option<string>) returns (raised: Raised)
      modifies this, row, db
      ensures State() == old(State()).(reminder := value)
      ensures Written([("reminder", OptionalText(value))], raised)
    {
      reminder := value;
      raised := UpdateDb([("reminder", OptionalText(value))]);
    }

    method UpdateReminderRepeat(value: Option<string>) returns (raised: Raised)
      modifies this, row, db
      ensures State() == old(State()).(reminderRepeat := value)
      ensures Written([("reminder_repeat", OptionalText(value))], raised)
    {
      reminderRepeat := value;
      raised := UpdateDb([("reminder_repeat", OptionalText(value))]);
    }

    method UpdateNotes(value: seq<string>) returns (raised: Raised)
      modifies this, row, db
      ensures State() == old(State()).(notes := value)
      ensures Written([("notes", NotesValue(value))], raised)
    {
      notes := value;
      raised := UpdateDb([("notes", NotesValue(value))]);
    }

    method UpdatePriority(value: int) returns (raised: Raised)
      modifies this, row, db
      ensures State() == old(State()).(priority := value)
      ensures Written([("priority", DB.VInt(value))], raised)
    {
      priority := value;
      raised := UpdateDb([("priority", DB.VInt(value))]);
    }

    /** `increment_priority(amount)`: the priority becomes `min(99, priority + amount)`, which is returned. */
    method IncrementPriority(amount: int) returns (r: Result<int>)
      modifies this, row, db
      ensures priority == (if old(priority) + amount < 99 then old(priority) + amount else 99)
      ensures priority <= 99 && (amount >= 0 ==> priority >= old(priority) || old(priority) > 99)
      ensures State() == old(State()).(priority := priority)
      ensures Written([("priority", DB.VInt(priority))], ErrorOf(r))
      ensures r.Ok? ==> r.value == priority
    {
      var newPriority := if priority + amount < 99 then priority + amount else 99;
      var raised := UpdatePriority(newPriority);
      r := if raised.Some? then Err(raised.value) else Ok(newPriority);
    }

    /** `decrement_priority(amount)`: the priority becomes `max(0, priority - amount)`, which is returned. */
    method DecrementPriority(amount: int) returns (r: Result<int>)
      modifies this, row, db
      ensures priority == (if old(priority) - amount > 0 then old(priority) - amount else 0)
      ensures priority >= 0 && (amount >= 0 ==> priority <= old(priority) || old(priority) < 0)
      ensures State() == old(State()).(priority := priority)
      ensures Written([("priority", DB.VInt(priority))], ErrorOf(r))
      ensures r.Ok? ==> r.value == priority
    {
      var newPriority := if priority - amount > 0 then priority - amount else 0;
      var raised := UpdatePriority(newPriority);
      r := if raised.Some? then Err(raised.value) else Ok(newPriority);
    }

    /**
     * `update_size`: the value is validated first; an invalid size raises
     * before anything changes, a valid one is stored normalised.
     */
    method UpdateSize(value: string) returns (raised: Raised)
      modifies this, row, db
      ensures ValidateSize(value).Err? ==>
        raised == Some(ValidateSize(value).error) && State() == old(State()) && Untouched()
      ensures ValidateSize(value).Ok? ==>
        State() == old(State()).(size := ValidateSize(value).value)
        && Written([("size", DB.VStr(ValidateSize(value).value))], raised)
    {
      var valid := ValidateSize(value);
      if valid.Err? {
        return Some(valid.error);
      }
      size := valid.value;
      raised := UpdateDb([("size", DB.VStr(size))]);
    }

    /** `add_note`: the note is appended; earlier notes keep their places. */
    method AddNote(note: string) returns (raised: Raised)
      modifies this, row, db
      ensures notes == old(notes) + [note]
      ensures State() == old(State()).(notes := notes)
      ensures Written([("notes", NotesValue(notes))], raised)
    {
      notes := notes + [note];
      raised := UpdateDb([("notes", NotesValue(notes))]);
    }

    /**
     * `remove_note(index)`: an index inside the list deletes exactly that
     * note; any other index, negative ones included, changes nothing and
     * writes nothing.
     */
    method RemoveNote(index: int) returns (raised: Raised)
      modifies this, row, db
      ensures 0 <= index < |old(notes)| ==>
        notes == old(notes)[..index] + old(notes)[index + 1..]
        && State() == old(State()).(notes := notes)
        && Written([("notes", NotesValue(notes))], raised)
      ensures !(0 <= index < |old(notes)|) ==> raised.None? && State() == old(State()) && Untouched()
    {
      raised := None;
      if 0 <= index < |notes| {
        notes := notes[..index] + notes[index + 1..];
        raised := UpdateDb([("notes", NotesValue(notes))]);
      }
    }

    /**
     * `delete`: the task is marked deleted; a row, when there is one, is
     * marked deleted too, and the commit needs the database as well.
     */
    method Delete() returns (raised: Raised)
      modifies this, row, db
      ensures State() == old(State()).(deleted := true)
      ensures row != null ==>
        var outcome := DB.UpdateOutcome(row.bound, row.table, old(row.data), [("deleted", DB.VBool(true))]);
        && raised == ErrorOf(outcome)
        && row.data == (if outcome.Ok? then old(row.data)["deleted" := DB.VBool(true)] else old(row.data))
        && (db != null ==> db.commits == old(db.commits) + (if outcome.Ok? then 1 else 0))
      ensures row == null ==> raised.None? && Untouched()
      ensures db != null ==> db.tables == old(db.tables) && db.executed == old(db.executed)
    {
      deleted := true;
      raised := None;
      if row != null {
        var outcome := row.DeleteRecord();
        if outcome.Err? {
          return Some(outcome.error);
        }
        if db != null {
          db.Commit();
        }
      }
    }

    /** `is_blocked`: the notes carry a depends marker. */
    method IsBlocked() returns (blocked: bool)
      ensures blocked <==> FirstDepends(notes).Some?
    {
      var dependsOn, underIds := ParseDependencies(notes);
      blocked := dependsOn.Some?;
    }

    /** `get_depends_on`. */
    method GetDependsOn() returns (dependsOn: Option<nat>)
      ensures dependsOn == FirstDepends(notes)
    {
      var underIds;
      dependsOn, underIds := ParseDependencies(notes);
    }

    /** `get_under_ids`. */
    method GetUnderIds() returns (underIds: set<nat>)
      ensures underIds == UnderIds(notes)
    {
      var dependsOn;
      dependsOn, underIds := ParseDependencies(notes);
    }

    /** `get_dependency_info`: the display information for `self.id or 0`. */
    function GetDependencyInfo(): (info: DisplayInfo)
      reads this
      ensures info.isBlocked <==> FirstDepends(notes).Some?
    {
      GetDisplayInfo(id.GetOr(0), notes)
    }
  }
}
