/**
 * The schema migrations of dolist/migrations.py over an abstract database: each
 * table is its list of columns in the order ALTER TABLE added them, and the
 * `dolist_schema_version` table is a log of applied versions (absent until the
 * first version is recorded).
 */
module Migrations {
  import opened Wrappers

  const Tasks := "dolist_tasks"
  const History := "dolist_task_history"

  datatype Column = Column(name: string, sqlType: string, default: Option<string>)

  const PriorityColumn := Column("priority", "INTEGER", Some("0"))
  const SizeColumn := Column("size", "TEXT", Some("'U'"))
  const RepeatColumn := Column("reminder_repeat", "TEXT", None)

  /** A row of `dolist_schema_version`; its autoincrement id is its position in the log. */
  datatype VersionRow = VersionRow(version: int, appliedAt: string)

  datatype Schema = Schema(tables: map<string, seq<Column>>, versions: Option<seq<VersionRow>>, commits: nat)

  predicate HasColumn(cols: seq<Column>, name: string) {
    exists i | 0 <= i < |cols| :: cols[i].name == name
  }

  /** `column_exists`: the table is there and has a column of that name. */
  predicate ColumnExists(s: Schema, table: string, name: string) {
    table in s.tables && HasColumn(s.tables[table], name)
  }

  function Log(s: Schema): seq<VersionRow> {
    s.versions.GetOr([])
  }

  /** `get_schema_version`: the version of the row with the highest id, 0 if the table is missing or empty. */
  function Version(s: Schema): int {
    var log := Log(s);
    if log == [] then 0 else log[|log| - 1].version
  }

  /** `set_schema_version`: create the table if needed, append a row, commit. */
  function Recorded(s: Schema, version: int, now: string): (r: Schema)
    ensures Version(r) == version && r.tables == s.tables
    ensures |Log(r)| == |Log(s)| + 1 && Log(r)[..|Log(s)|] == Log(s)
  {
    s.(versions := Some(Log(s) + [VersionRow(version, now)]), commits := s.commits + 1)
  }

  /** `if not column_exists(...): ALTER TABLE ... ADD COLUMN ...` for each column in turn. */
  function AddMissing(cols: seq<Column>, extra: seq<Column>): seq<Column>
  {
    if extra == [] then cols
    else
      var init := AddMissing(cols, extra[..|extra| - 1]);
      var c := extra[|extra| - 1];
      if HasColumn(init, c.name) then init else init + [c]
  }

  /** The columns added to `table`, if it exists. */
  function Extend(tables: map<string, seq<Column>>, table: string, extra: seq<Column>): map<string, seq<Column>> {
    if table in tables then tables[table := AddMissing(tables[table], extra)] else tables
  }

  /**
   * The shape both migrations share: skip unless `dolist_tasks` exists without the
   * `marker` column; otherwise add the missing columns to the tasks table and, when it
   * exists, the history table, commit, and record `version`.
   */
  function Migrate(s: Schema, marker: string, extra: seq<Column>, version: int, now: string): Schema {
    if !(Tasks in s.tables) || ColumnExists(s, Tasks, marker) then s
    else
      var tables := Extend(Extend(s.tables, Tasks, extra), History, extra);
      Recorded(Schema(tables, s.versions, s.commits + 1), version, now)
  }

  /** `migrate_to_v1_priority_and_size`. */
  function MigrateV1(s: Schema, now: string): Schema {
    Migrate(s, "priority", [PriorityColumn, SizeColumn], 1, now)
  }

  /** `migrate_to_v2_recurring_reminders`. */
  function MigrateV2(s: Schema, now: string): Schema {
    Migrate(s, "reminder_repeat", [RepeatColumn], 2, now)
  }

  /** The `i`-th entry (from 1) of `MIGRATIONS`. */
  function Migration(i: nat, s: Schema, now: string): Schema
    requires 1 <= i <= 2
  {
    if i == 1 then MigrateV1(s, now) else MigrateV2(s, now)
  }

  /** The first `n` steps of `run_migrations` from the version read at its start. */
  function RunUpTo(s: Schema, current: int, n: nat, now: string): Schema
    requires n <= 2
  {
    if n == 0 then s
    else
      var prev := RunUpTo(s, current, n - 1, now);
      if n > current then Migration(n, prev, now) else prev
  }

  /** `run_migrations`. */
  function Run(s: Schema, now: string): Schema {
    RunUpTo(s, Version(s), 2, now)
  }

  // ------------------------------------------------------------- the database object

  /** A database connection as the migrations see it. */
  class SchemaDb {
    var tables: map<string, seq<Column>>
    var versions: Option<seq<VersionRow>>
    var commits: nat

    constructor(tables: map<string, seq<Column>>, versions: Option<seq<VersionRow>>)
      ensures State() == Schema(tables, versions, 0)
    {
      this.tables := tables;
      this.versions := versions;
      this.commits := 0;
    }

    function State(): Schema
      reads this
    {
      Schema(tables, versions, commits)
    }

    /** `get_schema_version(db_conn)`. */
    method GetSchemaVersion() returns (version: int)
      ensures versions.None? || versions.value == [] ==> version == 0
      ensures versions.Some? && versions.value != [] ==> version == versions.value[|versions.value| - 1].version
      ensures version == Version(State())
    {
      if versions.None? {
        return 0;
      }
      var log := versions.value;
      if log == [] {
        return 0;
      }
      return log[|log| - 1].version;
    }

    /** `set_schema_version(db_conn, version)`; `now` is what SQLite's `datetime('now')` gives. */
    method SetSchemaVersion(version: int, now: string)
      modifies this
      ensures versions == Some(Log(old(State())) + [VersionRow(version, now)])
      ensures tables == old(tables) && commits == old(commits) + 1
      ensures State() == Recorded(old(State()), version, now)
    {
      var log := if versions.Some? then versions.value else [];
      versions := Some(log + [VersionRow(version, now)]);
      commits := commits + 1;
    }

    /** `column_exists(db_conn, table, name)`. */
    method ColumnExistsIn(table: string, name: string) returns (found: bool)
      ensures found == ColumnExists(State(), table, name)
    {
      if table !in tables {
        return false;
      }
      var cols := tables[table];
      found := false;
      var i := 0;
      while i < |cols|
        invariant 0 <= i <= |cols|
        invariant !found && forall j | 0 <= j < i :: cols[j].name != name
      {
        if cols[i].name == name {
          return true;
        }
        i := i + 1;
      }
    }

    /** The columns of `extra` that `table` lacks, added one ALTER TABLE at a time. */
    method AddColumns(table: string, extra: seq<Column>)
      requires table in tables
      modifies this
      ensures tables == old(tables)[table := AddMissing(old(tables)[table], extra)]
      ensures versions == old(versions) && commits == old(commits)
    {
      for k := 0 to |extra|
        invariant tables == old(tables)[table := AddMissing(old(tables)[table], extra[..k])]
        invariant versions == old(versions) && commits == old(commits)
      {
        assert extra[..k + 1][..k] == extra[..k];
        var present := ColumnExistsIn(table, extra[k].name);
        if !present {
          tables := tables[table := tables[table] + [extra[k]]];
        }
      }
      assert extra[..|extra|] == extra;
    }

    method ApplyMigration(marker: string, extra: seq<Column>, version: int, now: string)
      modifies this
      ensures State() == Migrate(old(State()), marker, extra, version, now)
    {
      if Tasks !in tables {
        return;
      }
      var migrated := ColumnExistsIn(Tasks, marker);
      if migrated {
        return;
      }
      AddColumns(Tasks, extra);
      if History in tables {
        AddColumns(History, extra);
      }
      commits := commits + 1;
      SetSchemaVersion(version, now);
    }

    /** `migrate_to_v1_priority_and_size(db_conn)`. */
    method MigrateToV1(now: string)
      modifies this
      ensures State() == MigrateV1(old(State()), now)
    {
      ApplyMigration("priority", [PriorityColumn, SizeColumn], 1, now);
    }

    /** `migrate_to_v2_recurring_reminders(db_conn)`. */
    method MigrateToV2(now: string)
      modifies this
      ensures State() == MigrateV2(old(State()), now)
    {
      ApplyMigration("reminder_repeat", [RepeatColumn], 2, now);
    }

    /** `run_migrations(db_conn)`: migration `i` runs exactly when `i` exceeds the version read first. */
    method RunMigrations(now: string)
      modifies this
      ensures State() == Run(old(State()), now)
    {
      ghost var start := State();
      var current := GetSchemaVersion();
      for i := 1 to 3
        invariant State() == RunUpTo(start, current, i - 1, now)
      {
        if i > current {
          if i == 1 {
            MigrateToV1(now);
          } else {
            MigrateToV2(now);
          }
        }
      }
    }
  }

  // ------------------------------------------------------------- properties

  /**
   * Adding missing columns keeps the old ones in front, appends only columns of `extra`,
   * leaves every column of `extra` present, and changes nothing when all were there.
   */
  lemma {:induction false} AddMissingFacts(cols: seq<Column>, extra: seq<Column>)
    ensures var r := AddMissing(cols, extra);
            |r| >= |cols| && r[..|cols|] == cols &&
            (forall j | |cols| <= j < |r| :: r[j] in extra) &&
            (forall j | 0 <= j < |extra| :: HasColumn(r, extra[j].name))
    ensures (forall j | 0 <= j < |extra| :: HasColumn(cols, extra[j].name)) ==> AddMissing(cols, extra) == cols
  {
    if extra != [] {
      var init := extra[..|extra| - 1];
      AddMissingFacts(cols, init);
      var prev := AddMissing(cols, init);
      var c := extra[|extra| - 1];
      var r := AddMissing(cols, extra);
      forall j | 0 <= j < |extra| ensures HasColumn(r, extra[j].name) {
        if j < |init| {
          assert extra[j] == init[j];
          var k :| 0 <= k < |prev| && prev[k].name == init[j].name;
          assert r[k] == prev[k];
        } else if !HasColumn(prev, c.name) {
          assert r[|prev|] == c;
        }
      }
      forall j | |cols| <= j < |r| ensures r[j] in extra {
        if j < |prev| {
          assert r[j] == prev[j];
          assert prev[j] in init;
        }
      }
      assert r[..|cols|] == prev[..|cols|];
      if forall j | 0 <= j < |extra| :: HasColumn(cols, extra[j].name) {
        assert forall j | 0 <= j < |init| :: HasColumn(cols, init[j].name) by {
          forall j | 0 <= j < |init| ensures HasColumn(cols, init[j].name) {
            assert init[j] == extra[j];
          }
        }
        assert HasColumn(cols, extra[|extra| - 1].name);
      }
    }
  }

  /** Whether a migration did anything: exactly when the tasks table exists and lacks `marker`. */
  predicate Pending(s: Schema, marker: string) {
    Tasks in s.tables && !ColumnExists(s, Tasks, marker)
  }

  /**
   * A pending migration adds the missing columns to the tasks table and to the history
   * table when that exists, keeps every existing column in place, touches no other table,
   * commits twice and records `version`; otherwise it changes nothing.
   */
  lemma {:induction false} MigrateEffect(s: Schema, marker: string, extra: seq<Column>, version: int, now: string)
    ensures var r := Migrate(s, marker, extra, version, now);
            (r == s <==> !Pending(s, marker)) &&
            (Pending(s, marker) ==>
               r.tables.Keys == s.tables.Keys &&
               (forall t | t in s.tables && t != Tasks && t != History :: r.tables[t] == s.tables[t]) &&
               (forall t | t in s.tables && (t == Tasks || t == History) ::
                  r.tables[t] == AddMissing(s.tables[t], extra)) &&
               r.commits == s.commits + 2 && Version(r) == version &&
               |Log(r)| == |Log(s)| + 1 && Log(r)[..|Log(s)|] == Log(s))
  {
    assert Tasks != History by { assert |Tasks| != |History|; }
    var r := Migrate(s, marker, extra, version, now);
    if Pending(s, marker) {
      assert |Log(r)| != |Log(s)|;
    }
  }

  /** Every column present before a migration is still present after it. */
  lemma MigrateKeepsColumns(s: Schema, marker: string, extra: seq<Column>, version: int, now: string, table: string, name: string)
    requires ColumnExists(s, table, name)
    ensures ColumnExists(Migrate(s, marker, extra, version, now), table, name)
  {
    MigrateEffect(s, marker, extra, version, now);
    if Pending(s, marker) && (table == Tasks || table == History) {
      AddMissingFacts(s.tables[table], extra);
      var r := Migrate(s, marker, extra, version, now);
      var k :| 0 <= k < |s.tables[table]| && s.tables[table][k].name == name;
      assert r.tables[table][k] == s.tables[table][k];
    }
  }

  /** A migration whose marker is one of its columns is idempotent: a second run finds it done. */
  lemma {:induction false} MigrateIdempotent(s: Schema, marker: string, extra: seq<Column>, version: int, now: string, later: string)
    requires exists j | 0 <= j < |extra| :: extra[j].name == marker
    ensures var r := Migrate(s, marker, extra, version, now);
            Migrate(r, marker, extra, version, later) == r
  {
    var r := Migrate(s, marker, extra, version, now);
    MigrateEffect(s, marker, extra, version, now);
    if Pending(s, marker) {
      AddMissingFacts(s.tables[Tasks], extra);
      assert ColumnExists(r, Tasks, marker);
    }
    MigrateEffect(r, marker, extra, version, later);
  }

  /** v1 leaves the tasks table (when there is one) with `priority`, and a second v1 does nothing. */
  lemma {:induction false} MigrateV1Done(s: Schema, now: string, later: string)
    ensures Tasks in s.tables ==> ColumnExists(MigrateV1(s, now), Tasks, "priority")
    ensures MigrateV1(MigrateV1(s, now), later) == MigrateV1(s, now)
  {
    var extra := [PriorityColumn, SizeColumn];
    assert extra[0].name == "priority";
    MigrateIdempotent(s, "priority", extra, 1, now, later);
    MigrateEffect(s, "priority", extra, 1, now);
    if Pending(s, "priority") {
      AddMissingFacts(s.tables[Tasks], extra);
    }
  }

  /** v2 leaves the tasks table (when there is one) with `reminder_repeat`, and a second v2 does nothing. */
  lemma {:induction false} MigrateV2Done(s: Schema, now: string, later: string)
    ensures Tasks in s.tables ==> ColumnExists(MigrateV2(s, now), Tasks, "reminder_repeat")
    ensures MigrateV2(MigrateV2(s, now), later) == MigrateV2(s, now)
  {
    var extra := [RepeatColumn];
    assert extra[0].name == "reminder_repeat";
    MigrateIdempotent(s, "reminder_repeat", extra, 2, now, later);
    MigrateEffect(s, "reminder_repeat", extra, 2, now);
    if Pending(s, "reminder_repeat") {
      AddMissingFacts(s.tables[Tasks], extra);
    }
  }

  /** A run is v1 when the version read is below 1, then v2 when it is below 2. */
  lemma {:induction false} RunSteps(s: Schema, now: string)
    ensures var s1 := if 1 > Version(s) then MigrateV1(s, now) else s;
            Run(s, now) == if 2 > Version(s) then MigrateV2(s1, now) else s1
  {
    var v := Version(s);
    assert RunUpTo(s, v, 0, now) == s;
    assert RunUpTo(s, v, 1, now) == if 1 > v then Migration(1, s, now) else s;
    assert Run(s, now) == RunUpTo(s, v, 2, now);
  }

  /** A database already at version 2 or later is left alone. */
  lemma {:induction false} RunUpToDate(s: Schema, now: string)
    requires Version(s) >= 2
    ensures Run(s, now) == s
  {
    RunSteps(s, now);
  }

  /**
   * From version 0 a run leaves the tasks table, if there is one, with both `priority`
   * and `reminder_repeat`, whichever of them it had to add.
   */
  lemma {:induction false} RunFromScratch(s: Schema, now: string)
    requires Version(s) < 1 && Tasks in s.tables
    ensures ColumnExists(Run(s, now), Tasks, "priority") && ColumnExists(Run(s, now), Tasks, "reminder_repeat")
  {
    var s1 := MigrateV1(s, now);
    RunSteps(s, now);
    MigrateV1Done(s, now, now);
    MigrateEffect(s, "priority", [PriorityColumn, SizeColumn], 1, now);
    MigrateV2Done(s1, now, now);
    MigrateKeepsColumns(s1, "reminder_repeat", [RepeatColumn], 2, now, Tasks, "priority");
  }

  /** Running the migrations a second time adds no column and records no version. */
  lemma {:induction false} RunIdempotent(s: Schema, now: string, later: string)
    ensures Run(Run(s, now), later) == Run(s, now)
  {
    var v := Version(s);
    var v1 := [PriorityColumn, SizeColumn];
    var v2 := [RepeatColumn];
    RunSteps(s, now);
    RunSteps(Run(s, now), later);
    if v < 1 {
      var s1 := MigrateV1(s, now);
      var s2 := MigrateV2(s1, now);
      MigrateEffect(s, "priority", v1, 1, now);
      MigrateEffect(s1, "reminder_repeat", v2, 2, now);
      MigrateV2Done(s1, now, later);
      assert Run(s, now) == s2;
      if Version(s2) < 1 {
        assert s2 == s1 && s1 == s;
        MigrateEffect(s, "reminder_repeat", v2, 2, later);
      }
    } else if v < 2 {
      MigrateEffect(s, "reminder_repeat", v2, 2, now);
      MigrateV2Done(s, now, later);
    }
  }
}
