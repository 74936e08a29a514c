/**
 * Reports (`dolist/reports.py`): the start and label of the day, week,
 * month or year an instant falls in, and the counts `calculate_metrics`
 * keeps per period, per status and per tag.
 */
module Reports {
  import opened Wrappers
  import opened Text
  import opened Calendar

  // ------------------------------------------------------------- periods

  predicate KnownPeriod(period: string) {
    period == "day" || period == "week" || period == "month" || period == "year"
  }

  function UnknownPeriod(period: string): PyError {
    ValueError("Unknown period: " + period)
  }

  /** The Monday of the week of day `n`. */
  function WeekStartDay(n: nat): (m: nat)
    requires n <= LastDay
    ensures m <= n < m + 7 && m % 7 == 0
  {
    n - n % 7
  }

  lemma FirstOfMonth(y: int, m: int, d: int)
    requires ValidDate(y, m, d)
    ensures ValidDate(y, m, 1) && ValidDate(y, 1, 1)
    ensures DayNumber(y, 1, 1) <= DayNumber(y, m, 1) <= DayNumber(y, m, d)
  {
    assert DaysBeforeMonth(y, 1) == 0;
  }

  /** `get_period_start(date, period)`: midnight of the date, of its week's Monday, of the 1st of its month, or of January 1st. */
  function PeriodStart(t: Instant, period: string): (r: Result<Instant>)
    ensures r.Err? <==> !KnownPeriod(period)
    ensures r.Err? ==> r.error == UnknownPeriod(period)
    ensures r.Ok? ==> r.value <= t && SecondOfDay(r.value) == 0
  {
    var n := DayOf(t);
    var d := CivilDate(n);
    FirstOfMonth(d.year, d.month, d.day);
    if period == "day" then Ok(At(n, 0))
    else if period == "week" then Ok(At(WeekStartDay(n), 0))
    else if period == "month" then Ok(At(DayNumber(d.year, d.month, 1), 0))
    else if period == "year" then Ok(At(DayNumber(d.year, 1, 1), 0))
    else Err(UnknownPeriod(period))
  }

  /** A day starts at its own midnight; a week on the Monday at most six days before. */
  lemma PeriodStartDayWeek(t: Instant)
    ensures DayOf(PeriodStart(t, "day").value) == DayOf(t)
    ensures var s := PeriodStart(t, "week").value;
      Weekday(s) == 0 && DayOf(s) <= DayOf(t) < DayOf(s) + 7
  {
  }

  /** A month starts on the 1st of the same month. */
  lemma PeriodStartMonth(t: Instant)
    ensures var d := CivilDate(DayOf(t));
      CivilDate(DayOf(PeriodStart(t, "month").value)) == Date(d.year, d.month, 1)
  {
    var d := CivilDate(DayOf(t));
    FirstOfMonth(d.year, d.month, d.day);
    assert DayOf(PeriodStart(t, "month").value) == DayNumber(d.year, d.month, 1);
    CivilDateOfDayNumber(d.year, d.month, 1);
  }

  /** A year starts on January 1st of the same year. */
  lemma PeriodStartYear(t: Instant)
    ensures var d := CivilDate(DayOf(t));
      CivilDate(DayOf(PeriodStart(t, "year").value)) == Date(d.year, 1, 1)
  {
    var d := CivilDate(DayOf(t));
    FirstOfMonth(d.year, d.month, d.day);
    assert DayOf(PeriodStart(t, "year").value) == DayNumber(d.year, 1, 1);
    CivilDateOfDayNumber(d.year, 1, 1);
  }

  /** The start of a period is the start of its own period. */
  lemma PeriodStartIdempotent(t: Instant, period: string)
    requires KnownPeriod(period)
    ensures PeriodStart(PeriodStart(t, period).value, period) == PeriodStart(t, period)
  {
    if period == "month" {
      MonthStartAgain(t);
    } else if period == "year" {
      YearStartAgain(t);
    }
  }

  lemma MonthStartAgain(t: Instant)
    ensures PeriodStart(PeriodStart(t, "month").value, "month") == PeriodStart(t, "month")
  {
    var d := CivilDate(DayOf(t));
    FirstOfMonth(d.year, d.month, d.day);
    var f := DayNumber(d.year, d.month, 1);
    assert PeriodStart(t, "month") == Ok(At(f, 0));
    MonthStartAt(d.year, d.month);
  }

  /** Midnight of the 1st of a month is the start of its own month. */
  lemma MonthStartAt(y: int, m: int)
    requires ValidDate(y, m, 1)
    ensures var s := At(DayNumber(y, m, 1), 0); PeriodStart(s, "month") == Ok(s)
  {
    CivilDateOfDayNumber(y, m, 1);
    assert "month" != "week";
  }

  lemma YearStartAgain(t: Instant)
    ensures PeriodStart(PeriodStart(t, "year").value, "year") == PeriodStart(t, "year")
  {
    var d := CivilDate(DayOf(t));
    FirstOfMonth(d.year, d.month, d.day);
    var f := DayNumber(d.year, 1, 1);
    assert PeriodStart(t, "year") == Ok(At(f, 0));
    YearStartAt(d.year);
  }

  /** Midnight of January 1st is the start of its own year. */
  lemma YearStartAt(y: int)
    requires ValidDate(y, 1, 1)
    ensures var s := At(DayNumber(y, 1, 1), 0); PeriodStart(s, "year") == Ok(s)
  {
    CivilDateOfDayNumber(y, 1, 1);
    assert "year" != "week";
  }

  /** `get_period_label(date, period)`. */
  function PeriodLabel(t: Instant, period: string): (r: Result<string>)
    ensures r.Err? <==> !KnownPeriod(period)
    ensures r.Err? ==> r.error == UnknownPeriod(period)
  {
    var n := DayOf(t);
    var d := CivilDate(n);
    if period == "day" then Ok(DateText(n))
    else if period == "week" then Ok("Week of " + DateText(WeekStartDay(n)))
    else if period == "month" then Ok(PadNat(d.year, 4) + "-" + PadNat(d.month, 2))
    else if period == "year" then Ok(PadNat(d.year, 4))
    else Err(UnknownPeriod(period))
  }

  /** An instant has the label of the start of its period: instants in one period share a label. */
  lemma LabelOfStart(t: Instant, period: string)
    requires KnownPeriod(period)
    ensures PeriodLabel(PeriodStart(t, period).value, period) == PeriodLabel(t, period)
  {
    var s := PeriodStart(t, period).value;
    if period == "month" {
      PeriodStartMonth(t);
      assert PeriodLabel(s, period) == PeriodLabel(t, period) by {
        assert CivilDate(DayOf(s)).year == CivilDate(DayOf(t)).year;
        assert CivilDate(DayOf(s)).month == CivilDate(DayOf(t)).month;
      }
    } else if period == "year" {
      PeriodStartYear(t);
      assert PeriodLabel(s, period) == PeriodLabel(t, period) by {
        assert CivilDate(DayOf(s)).year == CivilDate(DayOf(t)).year;
      }
    } else if period == "week" {
      assert DayOf(s) == WeekStartDay(DayOf(t));
      assert WeekStartDay(DayOf(s)) == DayOf(s);
    } else {
      assert DayOf(s) == DayOf(t);
    }
  }

  // ------------------------------------------------------------- counting

  /**
   * `created_on` as the report sees it: a datetime, a string none of the
   * accepted formats reads, or None.
   */
  datatype Created = Stamp(at: Instant) | Unreadable | Missing

  /**
   * `get_period_label(created, period)` for a created value that is not
   * skipped. None gets through the period tests and then fails on its first
   * attribute: `weekday` for a week, `strftime` otherwise.
   */
  function CreatedLabel(created: Created, period: string): (r: Result<string>)
    requires !created.Unreadable?
    ensures r.Err? <==> created.Missing? || !KnownPeriod(period)
    ensures !KnownPeriod(period) ==> r == Err(UnknownPeriod(period))
    ensures created.Missing? && KnownPeriod(period) ==> r.Err? && r.error.AttributeError?
  {
    match created
    case Stamp(at) => PeriodLabel(at, period)
    case Missing =>
      if !KnownPeriod(period) then Err(UnknownPeriod(period))
      else Err(AttributeError(if period == "week" then "weekday" else "strftime"))
  }

  /** The attributes of a task the report reads; `None` when the task has no such attribute. */
  datatype ReportTask = ReportTask(createdOn: Created, status: Option<string>, tag: Option<string>)

  function StatusKey(t: ReportTask): string { t.status.GetOr("unknown") }
  function TagKey(t: ReportTask): string { t.tag.GetOr("default") }

  type Counter = map<string, nat>

  /** `counter[key] += 1` on a `defaultdict(int)`. */
  function Bump(c: Counter, key: string): (r: Counter)
    ensures r.Keys == c.Keys + {key}
    ensures r[key] == (if key in c then c[key] else 0) + 1
    ensures forall k | k in c && k != key :: r[k] == c[k]
  {
    c[key := (if key in c then c[key] else 0) + 1]
  }

  /** `nested[bucket][key] += 1` on a `defaultdict` of `defaultdict(int)`. */
  function BumpIn(n: map<string, Counter>, bucket: string, key: string): map<string, Counter> {
    n[bucket := Bump(if bucket in n then n[bucket] else map[], key)]
  }

  datatype Counts = Counts(
    totalByPeriod: Counter,
    statusByPeriod: map<string, Counter>,
    tagByPeriod: map<string, Counter>,
    statusTotals: Counter,
    tagTotals: Counter)

  const NoCounts: Counts := Counts(map[], map[], map[], map[], map[])

  /** One counted task with its period label. */
  function Count(c: Counts, bucket: string, t: ReportTask): Counts {
    Counts(
      Bump(c.totalByPeriod, bucket),
      BumpIn(c.statusByPeriod, bucket, StatusKey(t)),
      BumpIn(c.tagByPeriod, bucket, TagKey(t)),
      Bump(c.statusTotals, StatusKey(t)),
      Bump(c.tagTotals, TagKey(t)))
  }

  /** The counts after the tasks in order: unreadable dates are skipped, and an unknown period fails at the first dated task. */
  function Tally(tasks: seq<ReportTask>, period: string): Result<Counts>
    decreases |tasks|
  {
    if tasks == [] then Ok(NoCounts)
    else
      var c :- Tally(tasks[..|tasks| - 1], period);
      var t := tasks[|tasks| - 1];
      if t.createdOn.Unreadable? then Ok(c)
      else
        var bucket :- CreatedLabel(t.createdOn, period);
        Ok(Count(c, bucket, t))
  }

  /** The number of tasks with a readable date. */
  function Dated(tasks: seq<ReportTask>): (n: nat)
    ensures n <= |tasks|
    decreases |tasks|
  {
    if tasks == [] then 0
    else Dated(tasks[..|tasks| - 1]) + (if tasks[|tasks| - 1].createdOn.Stamp? then 1 else 0)
  }

  /** The number of tasks whose `created_on` is None. */
  function Undated(tasks: seq<ReportTask>): (n: nat)
    ensures n + Dated(tasks) <= |tasks|
    decreases |tasks|
  {
    if tasks == [] then 0
    else Undated(tasks[..|tasks| - 1]) + (if tasks[|tasks| - 1].createdOn.Missing? then 1 else 0)
  }

  /** `count / total_tasks * 100`, kept as the two integers it is computed from. */
  datatype Share = Share(count: nat, total: nat)

  function Shares(c: Counter, total: nat): (r: map<string, Share>)
    ensures r.Keys == c.Keys
  {
    map k | k in c :: Share(c[k], total)
  }

  datatype Metrics = Metrics(
    totalByPeriod: Counter,
    statusByPeriod: map<string, Counter>,
    tagByPeriod: map<string, Counter>,
    statusTotals: Counter,
    tagTotals: Counter,
    statusPercentages: map<string, Share>,
    tagPercentages: map<string, Share>,
    totalTasks: nat,
    period: string)

  /** What `calculate_metrics(tasks, period)` returns. */
  function MetricsOf(tasks: seq<ReportTask>, period: string): Result<Metrics> {
    if tasks == [] then Ok(Metrics(map[], map[], map[], map[], map[], map[], map[], 0, period))
    else
      var c :- Tally(tasks, period);
      Ok(Metrics(c.totalByPeriod, c.statusByPeriod, c.tagByPeriod, c.statusTotals, c.tagTotals,
        Shares(c.statusTotals, |tasks|), Shares(c.tagTotals, |tasks|), |tasks|, period))
  }

  lemma TallyStep(tasks: seq<ReportTask>, period: string, i: nat)
    requires i < |tasks|
    ensures Tally(tasks[..i + 1], period) ==
      match Tally(tasks[..i], period)
      case Err(e) => Err(e)
      case Ok(c) =>
        if tasks[i].createdOn.Unreadable? then Ok(c)
        else
          match CreatedLabel(tasks[i].createdOn, period)
          case Err(e) => Err(e)
          case Ok(bucket) => Ok(Count(c, bucket, tasks[i]))
  {
    assert tasks[..i + 1][..i] == tasks[..i];
  }

  lemma {:induction false} TallyErrStays(tasks: seq<ReportTask>, period: string, k: nat)
    requires k <= |tasks| && Tally(tasks[..k], period).Err?
    ensures Tally(tasks, period) == Tally(tasks[..k], period)
    decreases |tasks| - k
  {
    if k < |tasks| {
      TallyStep(tasks, period, k);
      TallyErrStays(tasks, period, k + 1);
    } else {
      assert tasks[..k] == tasks;
    }
  }

  /** `calculate_metrics(tasks, period)`. */
  method CalculateMetrics(tasks: seq<ReportTask>, period: string) returns (r: Result<Metrics>)
    ensures r == MetricsOf(tasks, period)
  {
    if tasks == [] {
      return Ok(Metrics(map[], map[], map[], map[], map[], map[], map[], 0, period));
    }
    var totalByPeriod: Counter := map[];
    var statusByPeriod: map<string, Counter> := map[];
    var tagByPeriod: map<string, Counter> := map[];
    var statusTotals: Counter := map[];
    var tagTotals: Counter := map[];
    for i := 0 to |tasks|
      invariant Tally(tasks[..i], period) == Ok(Counts(totalByPeriod, statusByPeriod, tagByPeriod, statusTotals, tagTotals))
    {
      TallyStep(tasks, period, i);
      var task := tasks[i];
      if task.createdOn.Unreadable? {
        continue;
      }
      var periodLabel := CreatedLabel(task.createdOn, period);
      if periodLabel.Err? {
        TallyErrStays(tasks, period, i + 1);
        return Err(periodLabel.error);
      }
      var bucket := periodLabel.value;
      totalByPeriod := Bump(totalByPeriod, bucket);
      var status := task.status.GetOr("unknown");
      statusByPeriod := BumpIn(statusByPeriod, bucket, status);
      statusTotals := Bump(statusTotals, status);
      var tag := task.tag.GetOr("default");
      tagByPeriod := BumpIn(tagByPeriod, bucket, tag);
      tagTotals := Bump(tagTotals, tag);
    }
    assert tasks[..|tasks|] == tasks;
    var totalTasks := |tasks|;
    r := Ok(Metrics(totalByPeriod, statusByPeriod, tagByPeriod, statusTotals, tagTotals,
      Shares(statusTotals, totalTasks), Shares(tagTotals, totalTasks), totalTasks, period));
  }

  // ------------------------------------------------------------- counting invariants

  /** The sum of a counter's counts. */
  ghost function Sum(c: Counter): nat
    decreases |c|
  {
    if c == map[] then 0
    else
      var k :| k in c;
      c[k] + Sum(c - {k})
  }

  lemma {:induction false} SumRemove(c: Counter, k: string)
    requires k in c
    ensures Sum(c) == c[k] + Sum(c - {k})
    decreases |c|
  {
    var j :| j in c && Sum(c) == c[j] + Sum(c - {j});
    if j != k {
      assert (c - {j}) - {k} == (c - {k}) - {j};
      SumRemove(c - {j}, k);
      SumRemove(c - {k}, j);
    }
  }

  lemma BumpSum(c: Counter, key: string)
    ensures Sum(Bump(c, key)) == Sum(c) + 1
  {
    var b := Bump(c, key);
    SumRemove(b, key);
    if key in c {
      SumRemove(c, key);
      assert b - {key} == c - {key};
    } else {
      assert b - {key} == c;
    }
  }

  /** The counting invariants: every breakdown adds up to the counted tasks, per period and overall. */
  ghost predicate Consistent(c: Counts, counted: nat) {
    && Sum(c.totalByPeriod) == counted
    && Sum(c.statusTotals) == counted
    && Sum(c.tagTotals) == counted
    && c.statusByPeriod.Keys == c.totalByPeriod.Keys
    && c.tagByPeriod.Keys == c.totalByPeriod.Keys
    && (forall bucket | bucket in c.totalByPeriod ::
      Sum(c.statusByPeriod[bucket]) == c.totalByPeriod[bucket] && Sum(c.tagByPeriod[bucket]) == c.totalByPeriod[bucket])
  }

  /** A nested counter whose rows add up to the totals keeps doing so when both count one more. */
  lemma BumpInSums(n: map<string, Counter>, total: Counter, bucket: string, key: string)
    requires n.Keys == total.Keys
    requires forall l | l in total :: Sum(n[l]) == total[l]
    ensures BumpIn(n, bucket, key).Keys == Bump(total, bucket).Keys
    ensures forall l | l in Bump(total, bucket) :: Sum(BumpIn(n, bucket, key)[l]) == Bump(total, bucket)[l]
  {
    var row: Counter := if bucket in n then n[bucket] else map[];
    BumpSum(row, key);
    assert Sum(map[]) == 0;
  }

  lemma CountConsistent(c: Counts, counted: nat, bucket: string, t: ReportTask)
    requires Consistent(c, counted)
    ensures Consistent(Count(c, bucket, t), counted + 1)
  {
    BumpSum(c.totalByPeriod, bucket);
    BumpSum(c.statusTotals, StatusKey(t));
    BumpSum(c.tagTotals, TagKey(t));
    BumpInSums(c.statusByPeriod, c.totalByPeriod, bucket, StatusKey(t));
    BumpInSums(c.tagByPeriod, c.totalByPeriod, bucket, TagKey(t));
  }

  /** The counts of any tally are consistent, and count exactly the tasks with a readable date. */
  lemma {:induction false} TallyConsistent(tasks: seq<ReportTask>, period: string)
    requires Tally(tasks, period).Ok?
    ensures Consistent(Tally(tasks, period).value, Dated(tasks))
    decreases |tasks|
  {
    if tasks == [] {
      assert Sum(map[]) == 0;
    } else {
      var init := tasks[..|tasks| - 1];
      TallyConsistent(init, period);
      var t := tasks[|tasks| - 1];
      if t.createdOn.Stamp? {
        CountConsistent(Tally(init, period).value, Dated(init), CreatedLabel(t.createdOn, period).value, t);
      }
    }
  }

  /**
   * The tally fails exactly when some task has no `created_on`, or the period
   * is unknown and some task has a readable date. An unknown period fails
   * with `Unknown period`; a known one fails only on a missing date, with
   * AttributeError.
   */
  lemma {:induction false} TallyFails(tasks: seq<ReportTask>, period: string)
    ensures Tally(tasks, period).Err? <==> Undated(tasks) > 0 || (!KnownPeriod(period) && Dated(tasks) > 0)
    ensures Tally(tasks, period).Err? && !KnownPeriod(period) ==> Tally(tasks, period).error == UnknownPeriod(period)
    ensures Tally(tasks, period).Err? && KnownPeriod(period) ==> Tally(tasks, period).error.AttributeError?
    decreases |tasks|
  {
    if tasks != [] {
      TallyFails(tasks[..|tasks| - 1], period);
    }
  }

  /** The properties of `calculate_metrics` as a whole. */
  lemma MetricsInvariants(tasks: seq<ReportTask>, period: string)
    requires MetricsOf(tasks, period).Ok?
    ensures var m := MetricsOf(tasks, period).value;
      && m.totalTasks == |tasks| && m.period == period
      && Sum(m.totalByPeriod) == Dated(tasks) && Sum(m.statusTotals) == Dated(tasks) && Sum(m.tagTotals) == Dated(tasks)
      && m.statusByPeriod.Keys == m.totalByPeriod.Keys && m.tagByPeriod.Keys == m.totalByPeriod.Keys
      && (forall bucket | bucket in m.totalByPeriod ::
        Sum(m.statusByPeriod[bucket]) == m.totalByPeriod[bucket] && Sum(m.tagByPeriod[bucket]) == m.totalByPeriod[bucket])
      && m.statusPercentages.Keys == m.statusTotals.Keys && m.tagPercentages.Keys == m.tagTotals.Keys
  {
    if tasks == [] {
      assert Sum(map[]) == 0;
    } else {
      TallyConsistent(tasks, period);
    }
  }

  /** No tasks: every dictionary empty, no tasks counted, and the period given back, whatever it is. */
  lemma MetricsEmpty(period: string)
    ensures MetricsOf([], period) == Ok(Metrics(map[], map[], map[], map[], map[], map[], map[], 0, period))
  {
  }

  /** A task whose date cannot be read still counts in `total_tasks` but in no breakdown. */
  lemma MetricsSkipUnreadable(tasks: seq<ReportTask>, t: ReportTask, period: string)
    requires tasks != [] && t.createdOn.Unreadable?
    ensures Tally(tasks + [t], period) == Tally(tasks, period)
    ensures MetricsOf(tasks + [t], period).Ok? ==> MetricsOf(tasks + [t], period).value.totalTasks == |tasks| + 1
  {
    assert (tasks + [t])[..|tasks|] == tasks;
  }
}
