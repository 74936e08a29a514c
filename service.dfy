/**
 * The reminder service (`dolist/service.py`): each cycle selects the due
 * tasks of a store, dispatches a notification for each and then reschedules
 * a recurring reminder or clears a one-time one. The multi-database loop runs
 * that cycle over every store in order. Clocks are parameters; dispatching
 * is recorded as an event, since the notification transport itself (a
 * subprocess) is outside the model and its failures are caught and reported.
 */
module Service {
  import opened Wrappers
  import opened Text
  import opened Calendar
  import opened ReminderParser
  import DB = Database

  /** The task columns the service reads and writes. */
  datatype TaskRecord = TaskRecord(
    id: int,
    name: Option<string>,
    tag: Option<string>,
    status: Option<string>,
    reminder: Option<string>,
    reminderTimestamp: Option<Instant>,
    reminderRepeat: Option<string>,
    notes: Option<seq<string>>,
    createdOn: Option<Instant>,
    deleted: bool)

  /**
   * The selection the query means: not deleted, a reminder time at or before
   * `now`, and a status outside done and cancel. A NULL status fails SQL's
   * `NOT IN` and is not selected.
   */
  predicate Due(t: TaskRecord, now: Instant) {
    && !t.deleted
    && t.reminderTimestamp.Some? && t.reminderTimestamp.value <= now
    && t.status.Some? && t.status.value != "done" && t.status.value != "cancel"
  }

  // ------------------------------------------------------------- payload

  /**
   * The JSON-compatible values a payload holds. `JIso(t)` is the string
   * `isoformat()` gives for instant `t`, kept as the instant it renders.
   */
  datatype JsonValue = JNull | JInt(i: int) | JStr(s: string) | JIso(at: Instant) | JStrList(items: seq<string>)

  /** The keys of a payload, with the JSON names the program gives them. */
  datatype Field = IdKey | NameKey | TagKey | StatusKey | ReminderKey | NotesKey | CreatedOnKey | DatabaseKey

  function KeyName(f: Field): string {
    match f
    case IdKey => "id"
    case NameKey => "name"
    case TagKey => "tag"
    case StatusKey => "status"
    case ReminderKey => "reminder"
    case NotesKey => "notes"
    case CreatedOnKey => "created_on"
    case DatabaseKey => "database"
  }

  type TaskData = map<Field, JsonValue>

  function OptStr(s: Option<string>): JsonValue {
    if s.Some? then JStr(s.value) else JNull
  }

  /** The dictionary handed to `trigger_reminder`; the multi-database loop adds the database name. */
  function Payload(t: TaskRecord, database: Option<string>): (d: TaskData)
  {
    var base := map[
      IdKey := JInt(t.id),
      NameKey := OptStr(t.name),
      TagKey := OptStr(t.tag),
      StatusKey := OptStr(t.status),
      ReminderKey := OptStr(t.reminder),
      NotesKey := JStrList(if t.notes.Some? then t.notes.value else []),
      CreatedOnKey := if t.createdOn.Some? then JIso(t.createdOn.value) else JNull];
    if database.Some? then base[DatabaseKey := JStr(database.value)] else base
  }

  /** The payload's keys and the values it derives from the row: the notes as a list, the creation time in ISO form. */
  lemma PayloadShape(t: TaskRecord, database: Option<string>)
    ensures var d := Payload(t, database);
      && (forall f: Field :: f in d <==> f != DatabaseKey || database.Some?)
      && d[IdKey] == JInt(t.id)
      && d[NameKey] == OptStr(t.name) && d[TagKey] == OptStr(t.tag)
      && d[StatusKey] == OptStr(t.status) && d[ReminderKey] == OptStr(t.reminder)
      && d[NotesKey] == JStrList(if t.notes.Some? then t.notes.value else [])
      && d[CreatedOnKey] == (if t.createdOn.Some? then JIso(t.createdOn.value) else JNull)
      && (database.Some? ==> d[DatabaseKey] == JStr(database.value))
  {
  }

  /** Python truthiness of a value. */
  predicate Truthy(v: JsonValue) {
    match v
    case JNull => false
    case JInt(i) => i != 0
    case JStr(s) => s != []
    case JIso(_) => true
    case JStrList(xs) => xs != []
  }

  /** `str(v)` as an f-string renders it (list items quoted without escaping). */
  function Show(v: JsonValue): string {
    match v
    case JNull => "None"
    case JInt(i) => IntToString(i)
    case JStr(s) => s
    case JIso(at) => IsoFormat(at)
    case JStrList(xs) => "[" + Join(seq(|xs|, k requires 0 <= k < |xs| => "'" + xs[k] + "'"), ", ") + "]"
  }

  /** `d.get(key, default)` rendered by an f-string. */
  function ShowGet(d: TaskData, key: Field, default: string): string {
    if key in d then Show(d[key]) else default
  }

  /** What `trigger_reminder` sends: a desktop notification, the payload to a custom command, or nothing when building the body raised. */
  datatype Dispatch = Notify(title: string, body: string) | RunCommand(command: string, input: TaskData) | NotSent

  /** `trigger_reminder(task_data, config)`, with `config.get("reminder_cmd")` as `reminderCmd`. */
  /**
   * The line a truthy `notes` value adds to the notification body; `None`
   * where `len()` raises TypeError, which the notifier catches.
   */
  function NotesLine(v: JsonValue): Option<string> {
    match v
    case JStrList(xs) => Some("\n" + NatToString(|xs|) + " note(s) attached")
    case JStr(s) => Some("\n" + NatToString(|s|) + " note(s) attached")
    case JIso(at) => Some("\n" + NatToString(|IsoFormat(at)|) + " note(s) attached")
    case _ => None
  }

  function TriggerReminder(d: TaskData, reminderCmd: Option<string>): (r: Dispatch)
    ensures reminderCmd.Some? && reminderCmd.value != [] ==> r == RunCommand(reminderCmd.value, d)
    ensures r.Notify? ==> StartsWith(r.title, "DoList: ") && StartsWith(r.body, "Tag: ")
  {
    if reminderCmd.Some? && reminderCmd.value != [] then RunCommand(reminderCmd.value, d)
    else
      var name := ShowGet(d, NameKey, "Task Reminder");
      var info := ShowGet(d, TagKey, "N/A") + "\nStatus: " + ShowGet(d, StatusKey, "N/A");
      var notes := if NotesKey in d && Truthy(d[NotesKey]) then NotesLine(d[NotesKey]) else Some("");
      if notes.None? then NotSent
      else
        StartsWithConcat("DoList: ", name);
        StartsWithConcat("Tag: ", info + notes.value);
        Notify("DoList: " + name, "Tag: " + (info + notes.value))
  }

  /** How an optional column reads in the notification: the text, or `None`. */
  function ShowOpt(s: Option<string>): string {
    if s.Some? then s.value else "None"
  }

  /**
   * A payload always carries the name, tag and status keys, so the defaults
   * never apply: a missing name reads `None`, and the note count is the
   * number of notes.
   */
  lemma PayloadNotification(t: TaskRecord, database: Option<string>)
    ensures var notes := if t.notes.Some? then t.notes.value else [];
      TriggerReminder(Payload(t, database), None) ==
        Notify("DoList: " + ShowOpt(t.name),
               "Tag: " + (ShowOpt(t.tag) + "\nStatus: " + ShowOpt(t.status)
               + (if notes != [] then "\n" + NatToString(|notes|) + " note(s) attached" else "")))
  {
    var d := Payload(t, database);
    var notes := if t.notes.Some? then t.notes.value else [];
    assert ShowGet(d, NameKey, "Task Reminder") == ShowOpt(t.name);
    assert ShowGet(d, TagKey, "N/A") == ShowOpt(t.tag);
    assert ShowGet(d, StatusKey, "N/A") == ShowOpt(t.status);
    assert d[NotesKey] == JStrList(notes);
    assert Truthy(d[NotesKey]) <==> notes != [];
  }

  // ------------------------------------------------------------- one cycle

  /** What a cycle does, in order: a task handed to `trigger_reminder`, a reminder time written back. */
  datatype Event = Dispatched(task: TaskRecord) | Updated(taskId: int, reminderTimestamp: Option<Instant>)

  datatype Step = Next(record: TaskRecord) | Crash

  /** A notifier: `trigger_reminder` is the one the service uses. */
  type Notifier = TaskRecord -> Dispatch

  /**
   * The update after dispatching: a recurring reminder is parsed again
   * against `clock`, whose time it is once the notification went out; a
   * parse failure or a one-time reminder clears the time. OverflowError
   * escapes and ends the service.
   */
  function Reschedule(t: TaskRecord, clock: Instant, parse: Parser): Step {
    if t.reminderRepeat.Some? && t.reminderRepeat.value != [] then
      match parse(t.reminderRepeat.value, clock)
      case Parsed(at, _) => Next(t.(reminderTimestamp := Some(at)))
      case Failed(_) => Next(t.(reminderTimestamp := None))
      case Overflow => Crash
    else Next(t.(reminderTimestamp := None))
  }

  datatype CycleState = CycleState(rows: seq<TaskRecord>, events: seq<Event>, crashed: bool)

  /**
   * What rescheduling row `i` against `clocks[i]` gives, were it due. A row
   * is rescheduled at most once per cycle and only after it was read, so
   * these outcomes depend on the rows as the cycle found them.
   */
  function Outcomes(rows: seq<TaskRecord>, clocks: seq<Instant>, parse: Parser): (r: seq<Step>)
    requires |rows| == |clocks|
    ensures |r| == |rows|
  {
    seq(|rows|, i requires 0 <= i < |rows| => Reschedule(rows[i], clocks[i], parse))
  }

  /** Row `i` of the store, processed against the state left by the rows before it, with `step` its rescheduling. */
  function ProcessRow(s: CycleState, i: nat, now: Instant, step: Step): (r: CycleState)
    requires i < |s.rows|
    ensures |r.rows| == |s.rows|
    ensures forall j | 0 <= j < |s.rows| && j != i :: r.rows[j] == s.rows[j]
  {
    var t := s.rows[i];
    if !Due(t, now) then s
    else
      var sent := s.events + [Dispatched(t)];
      match step
      case Crash => CycleState(s.rows, sent, true)
      case Next(u) => CycleState(s.rows[i := u], sent + [Updated(t.id, u.reminderTimestamp)], false)
  }

  /** The first `n` rows of a cycle over `rows`, row `i` with rescheduling outcome `steps[i]`. */
  function CycleUpTo(rows: seq<TaskRecord>, now: Instant, steps: seq<Step>, n: nat): (s: CycleState)
    requires n <= |rows| == |steps|
    ensures |s.rows| == |rows|
    ensures forall j | n <= j < |rows| :: s.rows[j] == rows[j]
  {
    if n == 0 then CycleState(rows, [], false)
    else
      var s := CycleUpTo(rows, now, steps, n - 1);
      if s.crashed then s else ProcessRow(s, n - 1, now, steps[n - 1])
  }

  /** One pass of the service over a store's rows. */
  function Cycle(rows: seq<TaskRecord>, now: Instant, clocks: seq<Instant>, parse: Parser): CycleState
    requires |rows| == |clocks|
  {
    CycleUpTo(rows, now, Outcomes(rows, clocks, parse), |rows|)
  }

  /** Once a pass has crashed, the remaining rows are not processed. */
  lemma {:induction false} CrashIsFinal(rows: seq<TaskRecord>, now: Instant, steps: seq<Step>, k: nat, n: nat)
    requires k <= n <= |rows| == |steps|
    requires CycleUpTo(rows, now, steps, k).crashed
    ensures CycleUpTo(rows, now, steps, n) == CycleUpTo(rows, now, steps, k)
    decreases n - k
  {
    if k < n {
      CrashIsFinal(rows, now, steps, k, n - 1);
    }
  }

  /** The ids of the due rows among the first `n`, in order. */
  function DueIds(rows: seq<TaskRecord>, now: Instant, n: nat): seq<int>
    requires n <= |rows|
  {
    if n == 0 then [] else DueIds(rows, now, n - 1) + (if Due(rows[n - 1], now) then [rows[n - 1].id] else [])
  }

  /** The ids of the tasks notified, in order. */
  function DispatchedIds(events: seq<Event>): seq<int> {
    if events == [] then []
    else
      var last := events[|events| - 1];
      DispatchedIds(events[..|events| - 1]) + (if last.Dispatched? then [last.task.id] else [])
  }

  lemma DispatchedIdsAppend(a: seq<Event>, b: seq<Event>)
    ensures DispatchedIds(a + b) == DispatchedIds(a) + DispatchedIds(b)
    decreases |b|
  {
    if b != [] {
      assert (a + b)[..|a + b| - 1] == a + b[..|b| - 1];
      DispatchedIdsAppend(a, b[..|b| - 1]);
    } else {
      assert a + b == a;
    }
  }

  /** What `trigger_reminder` sends for each dispatched task, given its payload, in order. */
  function Sends(events: seq<Event>, notify: Notifier): (r: seq<Dispatch>)
    ensures |r| == |DispatchedIds(events)|
  {
    if events == [] then []
    else
      var last := events[|events| - 1];
      Sends(events[..|events| - 1], notify) + (if last.Dispatched? then [notify(last.task)] else [])
  }

  /** Dispatching task `t` adds its notification to what is sent. */
  lemma SendsDispatched(events: seq<Event>, t: TaskRecord, notify: Notifier)
    ensures Sends(events + [Dispatched(t)], notify) == Sends(events, notify) + [notify(t)]
  {
    assert (events + [Dispatched(t)])[..|events|] == events;
  }

  /** Recording a reschedule sends nothing. */
  lemma SendsUpdated(events: seq<Event>, id: int, at: Option<Instant>, notify: Notifier)
    ensures Sends(events + [Updated(id, at)], notify) == Sends(events, notify)
  {
    assert (events + [Updated(id, at)])[..|events|] == events;
  }

  /** Facts about a cycle that has not crashed after `n` rows. */
  predicate CycleFacts(rows: seq<TaskRecord>, now: Instant, steps: seq<Step>, n: nat, s: CycleState)
    requires n <= |rows| == |steps| == |s.rows|
  {
    // every due row is notified exactly once, in row order
    && DispatchedIds(s.events) == DueIds(rows, now, n)
    // only due rows change
    && (forall j | 0 <= j < |rows| && (n <= j || !Due(rows[j], now)) :: s.rows[j] == rows[j])
    // a due row ends as its rescheduling outcome says
    && (forall j | 0 <= j < n && Due(rows[j], now) :: steps[j] == Next(s.rows[j]))
  }

  /** Processing row `n` keeps the cycle facts of the rows before it. */
  lemma ProcessRowFacts(rows: seq<TaskRecord>, now: Instant, steps: seq<Step>, n: nat, s: CycleState)
    requires n < |rows| == |steps| == |s.rows|
    requires s.rows[n] == rows[n] && CycleFacts(rows, now, steps, n, s)
    requires !ProcessRow(s, n, now, steps[n]).crashed
    ensures CycleFacts(rows, now, steps, n + 1, ProcessRow(s, n, now, steps[n]))
  {
    var t := rows[n];
    if Due(t, now) {
      var d := Dispatched(t);
      var u := steps[n].record;
      DispatchedIdsAppend(s.events, [d]);
      DispatchedIdsAppend(s.events + [d], [Updated(t.id, u.reminderTimestamp)]);
      assert DispatchedIds([d]) == [t.id];
      assert DispatchedIds([Updated(t.id, u.reminderTimestamp)]) == [];
    }
  }

  lemma {:induction false} CycleUpToFacts(rows: seq<TaskRecord>, now: Instant, steps: seq<Step>, n: nat)
    requires n <= |rows| == |steps|
    requires !CycleUpTo(rows, now, steps, n).crashed
    ensures CycleFacts(rows, now, steps, n, CycleUpTo(rows, now, steps, n))
  {
    if n > 0 {
      var s := CycleUpTo(rows, now, steps, n - 1);
      assert !s.crashed;
      CycleUpToFacts(rows, now, steps, n - 1);
      ProcessRowFacts(rows, now, steps, n - 1, s);
    }
  }

  /**
   * In a pass that runs to the end, every due task is notified once and in
   * row order; a due row ends with the time its recurring reminder re-parses
   * to, or none; nothing else changes.
   */
  lemma CycleEffect(rows: seq<TaskRecord>, now: Instant, clocks: seq<Instant>)
    requires |rows| == |clocks|
    requires !Cycle(rows, now, clocks, ParseReminder).crashed
    ensures var c := Cycle(rows, now, clocks, ParseReminder);
      && CycleFacts(rows, now, Outcomes(rows, clocks, ParseReminder), |rows|, c)
      && (forall j | 0 <= j < |rows| && Due(rows[j], now) :: Reschedule(rows[j], clocks[j], ParseReminder) == Next(c.rows[j]))
      && (forall j | 0 <= j < |rows| :: c.rows[j].(reminderTimestamp := rows[j].reminderTimestamp) == rows[j])
  {
    var steps := Outcomes(rows, clocks, ParseReminder);
    var c := Cycle(rows, now, clocks, ParseReminder);
    CycleUpToFacts(rows, now, steps, |rows|);
    forall j | 0 <= j < |rows|
      ensures c.rows[j].(reminderTimestamp := rows[j].reminderTimestamp) == rows[j]
    {
      if Due(rows[j], now) {
        RescheduleOutcome(rows[j], clocks[j]);
      }
    }
  }

  /** A rescheduled reminder is never earlier than the clock it was parsed against, and a cleared one is gone. */
  lemma RescheduleOutcome(t: TaskRecord, clock: Instant)
    requires Reschedule(t, clock, ParseReminder).Next?
    ensures var u := Reschedule(t, clock, ParseReminder).record;
      u.(reminderTimestamp := t.reminderTimestamp) == t
      && (u.reminderTimestamp.None? || clock <= u.reminderTimestamp.value)
      && (t.reminderRepeat.None? || t.reminderRepeat.value == [] ==> u.reminderTimestamp.None?)
  {
    if t.reminderRepeat.Some? && t.reminderRepeat.value != [] {
      var p := ParseReminder(t.reminderRepeat.value, clock);
      assert p.Parsed? ==> clock <= p.at;
    }
  }

  // ------------------------------------------------------------- the query as written

  /**
   * A value the query expression at `dolist/service.py:205-210` combines with
   * `&`: a plain Python bool, a condition the field operators built, or a
   * condition object that holds a plain bool as an operand (`&` on a
   * condition accepts any right-hand side, but such an object has no SQL).
   */
  datatype Operand = PyBool(b: bool) | Condition(c: DB.Cond) | BoolInside

  /**
   * Python's `a & b` on those values: two bools give a bool; a condition on
   * the left builds `CompoundCondition(a, 'AND', b)`; a bool on the left of a
   * condition finds no `__rand__` on the condition classes and raises
   * TypeError.
   */
  function AndOp(a: Operand, b: Operand): (r: Result<Operand>)
    ensures r.Err? <==> a.PyBool? && !b.PyBool?
    ensures r.Ok? && r.value.PyBool? <==> a.PyBool? && b.PyBool?
  {
    match (a, b)
    case (PyBool(x), PyBool(y)) => Ok(PyBool(x && y))
    case (PyBool(_), _) => Err(TypeError)
    case (Condition(x), Condition(y)) => Ok(Condition(DB.Compound(x, DB.And, y)))
    case _ => Ok(BoolInside)
  }

  /** `first & rest[0] & rest[1] & ...`, grouped from the left as Python groups `&`; the first error escapes. */
  function AndChain(first: Operand, rest: seq<Operand>): Result<Operand>
    decreases |rest|
  {
    if rest == [] then Ok(first)
    else
      match AndOp(first, rest[0])
      case Err(e) => Err(e)
      case Ok(v) => AndChain(v, rest[1..])
  }

  /**
   * The due query as the loops build it. `not tasks_table.deleted` is False,
   * since a `Field` defines neither `__bool__` nor `__len__` and is truthy;
   * `tasks_table.reminder_timestamp is not None` is True, since a `Field` is
   * not None; the comparison and the negated `belongs` are conditions.
   */
  function DueQueryAsWritten(now: Instant): Result<Operand> {
    var atOrBefore := Condition(DB.Cmp("reminder_timestamp", "<=", DB.VTime(now)));
    var open := Condition(DB.Negation(DB.Cmp("status", "IN", DB.VList([DB.VStr("done"), DB.VStr("cancel")]))));
    AndChain(PyBool(false), [PyBool(true), atOrBefore, open])
  }

  /** Building the due query raises TypeError, whatever the time: `False & True` is False, and `False & <condition>` has no meaning. */
  lemma DueQueryRaises(now: Instant)
    ensures DueQueryAsWritten(now) == Err(TypeError)
  {
    var atOrBefore := Condition(DB.Cmp("reminder_timestamp", "<=", DB.VTime(now)));
    var open := Condition(DB.Negation(DB.Cmp("status", "IN", DB.VList([DB.VStr("done"), DB.VStr("cancel")]))));
    var rest := [PyBool(true), atOrBefore, open];
    assert AndChain(PyBool(false), rest) == AndChain(PyBool(false), rest[1..]);
    assert AndChain(PyBool(false), rest[1..]) == Err(TypeError);
  }

  /**
   * One pass of the single-database loop as written, given the outcome of
   * building its query: the query is built before any row is selected, and
   * an error there escapes the pass. `Due` is the selection a built query
   * is meant to make.
   */
  function PassAsWritten(query: Result<Operand>, rows: seq<TaskRecord>, now: Instant, clocks: seq<Instant>, parse: Parser): Result<CycleState>
    requires |rows| == |clocks|
  {
    var _ :- query;
    Ok(Cycle(rows, now, clocks, parse))
  }

  /** The pass as written raises TypeError before it reads a row, so no task is notified or rescheduled. */
  lemma PassAsWrittenRaises(rows: seq<TaskRecord>, now: Instant, clocks: seq<Instant>, parse: Parser)
    requires |rows| == |clocks|
    ensures PassAsWritten(DueQueryAsWritten(now), rows, now, clocks, parse) == Err(TypeError)
  {
    DueQueryRaises(now);
  }

  /**
   * One cycle of the multi-database loop as written: each store in turn
   * builds the query, whose outcome is `query`, and runs its pass; an error
   * or a crash ends the loop. The passes that ran are returned in order.
   */
  function TickAsWritten(query: Result<Operand>, stores: seq<seq<TaskRecord>>, now: Instant, clocks: seq<seq<Instant>>, parse: Parser): Result<seq<CycleState>>
    requires |clocks| == |stores|
    requires forall k | 0 <= k < |stores| :: |clocks[k]| == |stores[k]|
  {
    if stores == [] then Ok([])
    else
      var c :- PassAsWritten(query, stores[0], now, clocks[0], parse);
      if c.crashed then Ok([c])
      else
        var rest :- TickAsWritten(query, stores[1..], now, clocks[1..], parse);
        Ok([c] + rest)
  }

  /**
   * With `verbose` off, the multi-database cycle as written raises TypeError at the first store,
   * before any row of any store is selected; only a loop over no database
   * at all gets through its cycle.
   */
  lemma TickAsWrittenRaises(stores: seq<seq<TaskRecord>>, now: Instant, clocks: seq<seq<Instant>>, parse: Parser)
    requires |clocks| == |stores|
    requires forall k | 0 <= k < |stores| :: |clocks[k]| == |stores[k]|
    ensures TickAsWritten(DueQueryAsWritten(now), stores, now, clocks, parse) == if stores == [] then Ok([]) else Err(TypeError)
  {
    if stores != [] {
      PassAsWrittenRaises(stores[0], now, clocks[0], parse);
    }
  }

  // ------------------------------------------------------------- the stores

  /** One database's task table as the service sees it. */
  class Store {
    var rows: seq<TaskRecord>
    const name: string

    constructor (name: string, rows: seq<TaskRecord>)
      ensures this.name == name && this.rows == rows
    {
      this.name := name;
      this.rows := rows;
    }

    /**
     * One pass of the service over this store: each due task, in row order,
     * is notified and then rescheduled or cleared. `crashed` reports the
     * OverflowError that ends the service.
     */
    method RunCycle(now: Instant, clocks: seq<Instant>, parse: Parser, notify: Notifier)
      returns (events: seq<Event>, sent: seq<Dispatch>, crashed: bool)
      requires |clocks| == |rows|
      modifies this
      ensures CycleState(rows, events, crashed) == Cycle(old(rows), now, clocks, parse)
      ensures sent == Sends(events, notify)
    {
      ghost var rows0 := rows;
      ghost var steps := Outcomes(rows, clocks, parse);
      var i := 0;
      events := [];
      sent := [];
      crashed := false;
      while i < |rows| && !crashed
        invariant i <= |rows| == |rows0| == |clocks|
        invariant CycleState(rows, events, crashed) == CycleUpTo(rows0, now, steps, i)
        invariant sent == Sends(events, notify)
      {
        var t := rows[i];
        if Due(t, now) {
          SendsDispatched(events, t, notify);
          events := events + [Dispatched(t)];
          sent := sent + [notify(t)];
          var step := Reschedule(t, clocks[i], parse);
          assert step == steps[i];
          if step.Crash? {
            crashed := true;
          } else {
            rows := rows[i := step.record];
            SendsUpdated(events, t.id, step.record.reminderTimestamp, notify);
            events := events + [Updated(t.id, step.record.reminderTimestamp)];
          }
        }
        i := i + 1;
      }
      if crashed {
        CrashIsFinal(rows0, now, steps, i, |rows0|);
      }
    }
  }

  /** The notifier of the multi-database loop: the payload carries the store's name as `database`. */
  function NotifyFor(name: string, cmd: Option<string>): Notifier {
    t => TriggerReminder(Payload(t, Some(name)), cmd)
  }

  /**
   * In the multi-database loop a configured command receives the payload with
   * `database` set to the store's name; otherwise the notification is the one
   * the single-database loop shows.
   */
  lemma NotifyForDatabase(name: string, cmd: Option<string>, t: TaskRecord)
    ensures cmd.Some? && cmd.value != [] ==>
      NotifyFor(name, cmd)(t) == RunCommand(cmd.value, Payload(t, Some(name)))
      && Payload(t, Some(name))[DatabaseKey] == JStr(name)
    ensures !(cmd.Some? && cmd.value != []) ==>
      NotifyFor(name, cmd)(t) == TriggerReminder(Payload(t, None), None)
  {
    PayloadNotification(t, Some(name));
    PayloadNotification(t, None);
  }

  /** All stores are distinct objects. */
  predicate Distinct(stores: seq<Store>) {
    forall i, j | 0 <= i < j < |stores| :: stores[i] != stores[j]
  }

  /** The multi-database service, with its cycle counter. */
  class MultiService {
    var cycle: nat
    const stores: seq<Store>
    /** The reminder parser the service reschedules with. */
    const parse: Parser

    constructor (stores: seq<Store>)
      ensures this.stores == stores && cycle == 0 && parse == ParseReminder
    {
      this.stores := stores;
      parse := ParseReminder;
      cycle := 0;
    }

    /**
     * One cycle: the counter goes up by one and every store, in list order,
     * runs its pass under its own name; the first pass that crashes ends the
     * loop, and the stores after it are not visited. `sent` holds, per visited
     * store, the notifications its pass dispatched, each payload carrying the
     * store's name.
     */
    method Tick(now: Instant, clocks: seq<seq<Instant>>, cmd: Option<string>)
      returns (visited: nat, crashed: bool, sent: seq<seq<Dispatch>>)
      requires Distinct(stores) && |clocks| == |stores|
      requires forall k | 0 <= k < |stores| :: |clocks[k]| == |stores[k].rows|
      modifies this, stores
      ensures cycle == old(cycle) + 1
      ensures visited <= |stores| && (!crashed ==> visited == |stores|)
      ensures forall k | 0 <= k < visited ::
        var c := Cycle(old(stores[k].rows), now, clocks[k], parse);
        stores[k].rows == c.rows && (c.crashed <==> crashed && k == visited - 1)
      ensures forall k | visited <= k < |stores| :: stores[k].rows == old(stores[k].rows)
      ensures |sent| == visited
      ensures forall k | 0 <= k < visited ::
        sent[k] == Sends(Cycle(old(stores[k].rows), now, clocks[k], parse).events, NotifyFor(stores[k].name, cmd))
    {
      cycle := cycle + 1;
      visited := 0;
      crashed := false;
      sent := [];
      while visited < |stores| && !crashed
        invariant visited <= |stores| && |sent| == visited
        invariant cycle == old(cycle) + 1
        invariant forall k | 0 <= k < visited ::
          var c := Cycle(old(stores[k].rows), now, clocks[k], parse);
          stores[k].rows == c.rows && (c.crashed <==> crashed && k == visited - 1)
        invariant forall k | visited <= k < |stores| :: stores[k].rows == old(stores[k].rows)
        invariant forall k | 0 <= k < visited ::
          sent[k] == Sends(Cycle(old(stores[k].rows), now, clocks[k], parse).events, NotifyFor(stores[k].name, cmd))
      {
        var store := stores[visited];
        var events, storeSent;
        events, storeSent, crashed := store.RunCycle(now, clocks[visited], parse, NotifyFor(store.name, cmd));
        sent := sent + [storeSent];
        visited := visited + 1;
      }
    }
  }
}
