/**
 * The decision logic of the terminal UI (`dolist/tui.py`): the search
 * syntax, the filters applied to the rows a query returned, the status
 * cycle, the "All" button's mode cycle with the precedence of the status
 * filters, and the reminder repair done while the task list is refreshed.
 */
module Tui {
  import opened Wrappers
  import opened Text
  import opened Calendar
  import opened ReminderParser
  import opened Dependency
  import TaskModel

  // ------------------------------------------------------------- search syntax

  /** A value of the search filter dictionary: a string, or a list of strings. */
  datatype FilterValue = Single(s: string) | Items(items: seq<string>)

  type Filters = map<string, FilterValue>

  /** The part of `key=value` before the first `=`. */
  function KeyOf(part: string): string
    requires '=' in part
  {
    part[..IndexOf(part, '=')]
  }

  /** The part of `key=value` after the first `=`. */
  function ValueOf(part: string): string
    requires '=' in part
  {
    part[IndexOf(part, '=') + 1..]
  }

  predicate KnownKey(key: string) {
    key == "tag" || key == "status" || key == "priority" || key == "size" || key == "name" || key == "note"
  }

  /** What one `key=value` token stores under its key; `None` for a key the syntax does not know. */
  function Entry(key: string, value: string): (r: Option<FilterValue>)
    ensures r.Some? <==> KnownKey(key)
  {
    if key == "tag" || key == "status" then Some(Items(SplitOn(value, ',')))
    else if key == "priority" || key == "name" || key == "note" then Some(Single(value))
    else if key == "size" then
      var sizes := SplitOn(value, ',');
      Some(if |sizes| == 1 then Single(sizes[0]) else Items(sizes))
    else None
  }

  /** One token's effect on the dictionary: a token with a known key stores its entry, any other changes nothing. */
  function AddToken(f: Filters, p: string): Filters {
    if '=' in p then
      match Entry(KeyOf(p), ValueOf(p))
      case Some(e) => f[KeyOf(p) := e]
      case None => f
    else f
  }

  /** The dictionary the `key=value` tokens build, one token after the other. */
  function Fields(parts: seq<string>): Filters
    decreases |parts|
  {
    if parts == [] then map[] else AddToken(Fields(parts[..|parts| - 1]), parts[|parts| - 1])
  }

  lemma FieldsStep(parts: seq<string>, i: nat)
    requires i < |parts|
    ensures Fields(parts[..i + 1]) == AddToken(Fields(parts[..i]), parts[i])
    ensures Plain(parts[..i + 1]) == Plain(parts[..i]) + (if '=' in parts[i] then [] else [parts[i]])
  {
    assert parts[..i + 1][..i] == parts[..i];
  }

  /** The tokens without `=`, in order. */
  function Plain(parts: seq<string>): seq<string>
    decreases |parts|
  {
    if parts == [] then []
    else
      var p := parts[|parts| - 1];
      Plain(parts[..|parts| - 1]) + (if '=' in p then [] else [p])
  }

  /** What `parse_search` returns for a search text. */
  function SearchFilters(searchText: string): Filters {
    var parts := Words(Strip(searchText));
    var plain := Plain(parts);
    if plain == [] then Fields(parts) else Fields(parts)["text" := Single(Join(plain, " "))]
  }

  /** The loop of `parse_search` over the tokens. */
  method ScanTokens(parts: seq<string>) returns (filters: Filters, remaining: seq<string>)
    ensures filters == Fields(parts) && remaining == Plain(parts)
  {
    filters := map[];
    remaining := [];
    for i := 0 to |parts|
      invariant filters == Fields(parts[..i])
      invariant remaining == Plain(parts[..i])
    {
      FieldsStep(parts, i);
      var part := parts[i];
      if '=' in part {
        var key, value := KeyOf(part), ValueOf(part);
        var entry := Entry(key, value);
        if entry.Some? {
          filters := filters[key := entry.value];
        }
      } else {
        remaining := remaining + [part];
      }
    }
    assert parts[..|parts|] == parts;
  }

  /** `parse_search(search_text)`. */
  method ParseSearch(searchText: string) returns (filters: Filters)
    ensures filters == SearchFilters(searchText)
  {
    var remaining;
    filters, remaining := ScanTokens(Words(Strip(searchText)));
    if remaining != [] {
      filters := filters["text" := Single(Join(remaining, " "))];
    }
  }

  predicate HasKey(part: string, key: string) {
    '=' in part && KeyOf(part) == key
  }

  /** The last token naming a known key decides that key's entry; earlier ones are overwritten. */
  lemma {:induction false} FieldsLastWins(parts: seq<string>, j: nat)
    requires j < |parts| && '=' in parts[j] && KnownKey(KeyOf(parts[j]))
    requires forall k | j < k < |parts| :: !HasKey(parts[k], KeyOf(parts[j]))
    ensures KeyOf(parts[j]) in Fields(parts)
    ensures Fields(parts)[KeyOf(parts[j])] == Entry(KeyOf(parts[j]), ValueOf(parts[j])).value
    decreases |parts|
  {
    var init := parts[..|parts| - 1];
    if j < |parts| - 1 {
      assert init[j] == parts[j];
      forall k | j < k < |init|
        ensures !HasKey(init[k], KeyOf(init[j]))
      {
        assert init[k] == parts[k];
      }
      FieldsLastWins(init, j);
      assert !HasKey(parts[|parts| - 1], KeyOf(parts[j]));
    }
  }

  /** A key no token names is absent, and only the six known keys ever appear. */
  lemma {:induction false} FieldsKeys(parts: seq<string>, key: string)
    requires !KnownKey(key) || forall k | 0 <= k < |parts| :: !HasKey(parts[k], key)
    ensures key !in Fields(parts)
    decreases |parts|
  {
    if parts != [] {
      var init := parts[..|parts| - 1];
      if KnownKey(key) {
        forall k | 0 <= k < |init|
          ensures !HasKey(init[k], key)
        {
          assert init[k] == parts[k];
        }
        assert !HasKey(parts[|parts| - 1], key);
      }
      FieldsKeys(init, key);
    }
  }

  /** The `text` entry is there exactly when some token has no `=`, and joins those tokens with single spaces. */
  lemma SearchText(searchText: string)
    ensures var parts := Words(Strip(searchText));
      && ("text" in SearchFilters(searchText) <==> Plain(parts) != [])
      && ("text" in SearchFilters(searchText) ==> SearchFilters(searchText)["text"] == Single(Join(Plain(parts), " ")))
  {
    FieldsKeys(Words(Strip(searchText)), "text");
  }

  /** The shape of every entry: lists for tag and status, strings for priority, name, note and text. */
  predicate WellFormed(f: Filters) {
    && ("tag" in f ==> f["tag"].Items?)
    && ("status" in f ==> f["status"].Items?)
    && ("priority" in f ==> f["priority"].Single?)
    && ("name" in f ==> f["name"].Single?)
    && ("note" in f ==> f["note"].Single?)
    && ("text" in f ==> f["text"].Single?)
  }

  lemma {:induction false} FieldsWellFormed(parts: seq<string>)
    ensures WellFormed(Fields(parts))
    decreases |parts|
  {
    if parts != [] {
      FieldsWellFormed(parts[..|parts| - 1]);
      FieldsKeys(parts[..|parts| - 1], "text");
      FieldsKeys(parts, "text");
    }
  }

  lemma SearchFiltersWellFormed(searchText: string)
    ensures WellFormed(SearchFilters(searchText))
  {
    var parts := Words(Strip(searchText));
    FieldsWellFormed(parts);
    WithTextWellFormed(Fields(parts), Join(Plain(parts), " "));
  }

  lemma WithTextWellFormed(f: Filters, text: string)
    requires WellFormed(f)
    ensures WellFormed(f["text" := Single(text)])
  {
  }

  // ------------------------------------------------------------- rows

  /** The columns of a listed task row the refresh reads (`None` for NULL or, for the `get` ones, missing). */
  datatype Listed = Listed(
    id: int,
    name: string,
    status: string,
    notes: Option<seq<string>>,
    priority: Option<int>,
    size: Option<string>,
    reminder: Option<string>,
    reminderAt: Option<Instant>,
    reminderRepeat: Option<string>)

  function NotesOf(t: Listed): seq<string> { t.notes.GetOr([]) }
  function PriorityOf(t: Listed): int { t.priority.GetOr(0) }
  function SizeOf(t: Listed): string { t.size.GetOr("U") }

  /** Python truthiness of an optional string. */
  predicate Filled(s: Option<string>) { s.Some? && s.value != "" }

  /** The elements of `xs` that satisfy `p`, in their order. */
  function Keep<T>(xs: seq<T>, p: T -> bool): (r: seq<T>)
    ensures |r| <= |xs|
    decreases |xs|
  {
    if xs == [] then []
    else Keep(xs[..|xs| - 1], p) + (if p(xs[|xs| - 1]) then [xs[|xs| - 1]] else [])
  }

  lemma {:induction false} KeepMembers<T>(xs: seq<T>, p: T -> bool, x: T)
    ensures x in Keep(xs, p) <==> x in xs && p(x)
    decreases |xs|
  {
    if xs != [] {
      var init := xs[..|xs| - 1];
      KeepMembers(init, p, x);
      assert xs == init + [xs[|xs| - 1]];
    }
  }

  lemma {:induction false} KeepSatisfies<T>(xs: seq<T>, p: T -> bool)
    ensures forall i | 0 <= i < |Keep(xs, p)| :: p(Keep(xs, p)[i])
    decreases |xs|
  {
    if xs != [] {
      KeepSatisfies(xs[..|xs| - 1], p);
    }
  }

  lemma {:induction false} KeepNothing<T>(xs: seq<T>, p: T -> bool)
    requires forall i | 0 <= i < |xs| :: !p(xs[i])
    ensures Keep(xs, p) == []
    decreases |xs|
  {
    if xs != [] {
      KeepNothing(xs[..|xs| - 1], p);
    }
  }

  /** Two filters that no element passes both together take each element at most once. */
  lemma {:induction false} KeepDisjoint<T>(xs: seq<T>, p: T -> bool, q: T -> bool)
    requires forall i | 0 <= i < |xs| :: !(p(xs[i]) && q(xs[i]))
    ensures multiset(Keep(xs, p) + Keep(xs, q)) <= multiset(xs)
    decreases |xs|
  {
    if xs != [] {
      var init, x := xs[..|xs| - 1], xs[|xs| - 1];
      assert forall i | 0 <= i < |init| :: init[i] == xs[i];
      KeepDisjoint(init, p, q);
      assert xs == init + [x];
      DisjointStep(Keep(init, p), Keep(init, q), init, x, p(x), q(x));
    }
  }

  /** One more element, taken by at most one of the two filters. */
  lemma DisjointStep<T>(kp: seq<T>, kq: seq<T>, init: seq<T>, x: T, inP: bool, inQ: bool)
    requires multiset(kp + kq) <= multiset(init) && !(inP && inQ)
    ensures multiset((kp + (if inP then [x] else [])) + (kq + (if inQ then [x] else []))) <= multiset(init + [x])
  {
    var ep: seq<T> := if inP then [x] else [];
    var eq: seq<T> := if inQ then [x] else [];
    assert multiset(ep) + multiset(eq) <= multiset{x};
    calc {
      multiset((kp + ep) + (kq + eq));
    ==
      multiset(kp) + multiset(ep) + (multiset(kq) + multiset(eq));
    ==
      multiset(kp + kq) + (multiset(ep) + multiset(eq));
    }
    assert multiset(init + [x]) == multiset(init) + multiset{x};
  }

  // ------------------------------------------------------------- text and note search

  /** Some note contains `q`, lower-cased. */
  function AnyNoteHas(notes: seq<string>, q: string): bool
    decreases |notes|
  {
    notes != [] && (AnyNoteHas(notes[..|notes| - 1], q) || Contains(Lower(notes[|notes| - 1]), q))
  }

  lemma {:induction false} AnyNoteHasWitness(notes: seq<string>, q: string)
    ensures AnyNoteHas(notes, q) <==> exists i | 0 <= i < |notes| :: Contains(Lower(notes[i]), q)
    decreases |notes|
  {
    if notes != [] {
      var init := notes[..|notes| - 1];
      AnyNoteHasWitness(init, q);
      if AnyNoteHas(notes, q) && !Contains(Lower(notes[|notes| - 1]), q) {
        var i :| 0 <= i < |init| && Contains(Lower(init[i]), q);
        assert notes[i] == init[i];
      }
      if exists i | 0 <= i < |notes| :: Contains(Lower(notes[i]), q) {
        var i :| 0 <= i < |notes| && Contains(Lower(notes[i]), q);
        if i < |init| {
          assert init[i] == notes[i];
        }
      }
    }
  }

  /** The inner loop over the notes, which stops at the first note containing the text. */
  method NotesMention(notes: seq<string>, q: string) returns (found: bool)
    ensures found == AnyNoteHas(notes, q)
  {
    found := false;
    var i := 0;
    while i < |notes|
      invariant 0 <= i <= |notes|
      invariant !found && !AnyNoteHas(notes[..i], q)
    {
      assert notes[..i + 1][..i] == notes[..i];
      if Contains(Lower(notes[i]), q) {
        found := true;
        PrefixNoteHas(notes, q, i + 1);
        break;
      }
      i := i + 1;
    }
    if !found {
      assert notes[..i] == notes;
    }
  }

  lemma {:induction false} PrefixNoteHas(notes: seq<string>, q: string, n: nat)
    requires n <= |notes| && AnyNoteHas(notes[..n], q)
    ensures AnyNoteHas(notes, q)
    decreases |notes| - n
  {
    if n < |notes| {
      assert notes[..n + 1][..n] == notes[..n];
      PrefixNoteHas(notes, q, n + 1);
    } else {
      assert notes[..n] == notes;
    }
  }

  function NameHas(q: string): Listed -> bool {
    (t: Listed) => Contains(Lower(t.name), q)
  }

  function OnlyNoteHas(q: string): Listed -> bool {
    (t: Listed) => !Contains(Lower(t.name), q) && AnyNoteHas(NotesOf(t), q)
  }

  function NoteHas(q: string): Listed -> bool {
    (t: Listed) => AnyNoteHas(NotesOf(t), q)
  }

  /** The general text search: rows whose name contains the text, then rows where only a note does. */
  function TextMatches(rows: seq<Listed>, text: string): seq<Listed> {
    Keep(rows, NameHas(Lower(text))) + Keep(rows, OnlyNoteHas(Lower(text)))
  }

  method SearchByText(rows: seq<Listed>, text: string) returns (result: seq<Listed>)
    ensures result == TextMatches(rows, text)
  {
    var q := Lower(text);
    var nameMatches: seq<Listed> := [];
    var noteMatches: seq<Listed> := [];
    for i := 0 to |rows|
      invariant nameMatches == Keep(rows[..i], NameHas(q))
      invariant noteMatches == Keep(rows[..i], OnlyNoteHas(q))
    {
      assert rows[..i + 1][..i] == rows[..i];
      var row := rows[i];
      if Contains(Lower(row.name), q) {
        nameMatches := nameMatches + [row];
      } else if row.notes.Some? && row.notes.value != [] {
        var found := NotesMention(row.notes.value, q);
        if found {
          noteMatches := noteMatches + [row];
        }
      }
    }
    assert rows[..|rows|] == rows;
    result := nameMatches + noteMatches;
  }

  /** A row is in the text search result exactly when its name or a note contains the text, and at most as often as in the input. */
  lemma TextMatchesMembers(rows: seq<Listed>, text: string, t: Listed)
    ensures t in TextMatches(rows, text) <==>
      t in rows && (Contains(Lower(t.name), Lower(text)) || AnyNoteHas(NotesOf(t), Lower(text)))
    ensures multiset(TextMatches(rows, text)) <= multiset(rows)
  {
    KeepMembers(rows, NameHas(Lower(text)), t);
    KeepMembers(rows, OnlyNoteHas(Lower(text)), t);
    KeepDisjoint(rows, NameHas(Lower(text)), OnlyNoteHas(Lower(text)));
  }

  /** Within the result, every name match comes before every note-only match. */
  lemma TextMatchesNameFirst(rows: seq<Listed>, text: string, i: nat, j: nat)
    requires i < j < |TextMatches(rows, text)|
    requires !Contains(Lower(TextMatches(rows, text)[i].name), Lower(text))
    ensures !Contains(Lower(TextMatches(rows, text)[j].name), Lower(text))
  {
    var q := Lower(text);
    KeepSatisfies(rows, NameHas(q));
    KeepSatisfies(rows, OnlyNoteHas(q));
  }

  /** The note-only search. */
  method SearchByNote(rows: seq<Listed>, note: string) returns (result: seq<Listed>)
    ensures result == Keep(rows, NoteHas(Lower(note)))
  {
    var q := Lower(note);
    result := [];
    for i := 0 to |rows|
      invariant result == Keep(rows[..i], NoteHas(q))
    {
      assert rows[..i + 1][..i] == rows[..i];
      var row := rows[i];
      if row.notes.Some? && row.notes.value != [] {
        var found := NotesMention(row.notes.value, q);
        if found {
          result := result + [row];
        }
      }
    }
    assert rows[..|rows|] == rows;
  }

  // ------------------------------------------------------------- priority filter

  datatype Comparison = AtLeast | Above | AtMost | Below | Equal

  /** The operator a priority filter starts with, tested in the program's order, and the operand after it. */
  function PriorityOperator(filter: string): (Comparison, string) {
    if |filter| >= 2 && filter[0] == '>' && filter[1] == '=' then (AtLeast, filter[2..])
    else if |filter| >= 1 && filter[0] == '>' then (Above, filter[1..])
    else if |filter| >= 2 && filter[0] == '<' && filter[1] == '=' then (AtMost, filter[2..])
    else if |filter| >= 1 && filter[0] == '<' then (Below, filter[1..])
    else if |filter| >= 1 && filter[0] == '=' then (Equal, filter[1..])
    else (Equal, filter)
  }

  function Compare(op: Comparison, p: int, v: int): bool {
    match op
    case AtLeast => p >= v
    case Above => p > v
    case AtMost => p <= v
    case Below => p < v
    case Equal => p == v
  }

  /** Whether a task with priority `p` passes; an operand `int()` rejects lets nothing pass. */
  function PriorityIncludes(filter: string, p: int): bool {
    var (op, operand) := PriorityOperator(filter);
    match ParseInt(operand)
    case Some(v) => Compare(op, p, v)
    case None => false
  }

  function PriorityKeeps(filter: string): Listed -> bool {
    (t: Listed) => PriorityIncludes(filter, PriorityOf(t))
  }

  method FilterByPriority(rows: seq<Listed>, filter: string) returns (kept: seq<Listed>)
    ensures kept == Keep(rows, PriorityKeeps(filter))
  {
    kept := [];
    for i := 0 to |rows|
      invariant kept == Keep(rows[..i], PriorityKeeps(filter))
    {
      assert rows[..i + 1][..i] == rows[..i];
      var taskPriority := rows[i].priority.GetOr(0);
      if PriorityIncludes(filter, taskPriority) {
        kept := kept + [rows[i]];
      }
    }
    assert rows[..|rows|] == rows;
  }

  /** An operand that is not an integer excludes every row. */
  lemma PriorityBadOperand(rows: seq<Listed>, filter: string)
    requires ParseInt(PriorityOperator(filter).1) == None
    ensures Keep(rows, PriorityKeeps(filter)) == []
  {
    KeepNothing(rows, PriorityKeeps(filter));
  }

  /** `>=N`, `>N`, `<=N`, `<N`, `=N` and `N` for a run of digits compare the priority with N as they read. */
  lemma PriorityAtLeast(ds: string, p: int)
    requires ds != [] && AllDigits(ds)
    ensures PriorityIncludes(">=" + ds, p) <==> p >= DigitsValue(ds)
  {
    ParseIntDigits(ds);
    assert (">=" + ds)[0] == '>' && (">=" + ds)[1] == '=' && (">=" + ds)[2..] == ds;
  }

  lemma PriorityAbove(ds: string, p: int)
    requires ds != [] && AllDigits(ds)
    ensures PriorityIncludes(">" + ds, p) <==> p > DigitsValue(ds)
  {
    ParseIntDigits(ds);
    assert (">" + ds)[0] == '>' && (">" + ds)[1..] == ds && (">" + ds)[1] == ds[0];
  }

  lemma PriorityAtMost(ds: string, p: int)
    requires ds != [] && AllDigits(ds)
    ensures PriorityIncludes("<=" + ds, p) <==> p <= DigitsValue(ds)
  {
    ParseIntDigits(ds);
    assert ("<=" + ds)[0] == '<' && ("<=" + ds)[1] == '=' && ("<=" + ds)[2..] == ds;
  }

  lemma PriorityBelow(ds: string, p: int)
    requires ds != [] && AllDigits(ds)
    ensures PriorityIncludes("<" + ds, p) <==> p < DigitsValue(ds)
  {
    ParseIntDigits(ds);
    assert ("<" + ds)[0] == '<' && ("<" + ds)[1..] == ds && ("<" + ds)[1] == ds[0];
  }

  lemma PriorityEqual(ds: string, p: int)
    requires ds != [] && AllDigits(ds)
    ensures PriorityIncludes("=" + ds, p) <==> p == DigitsValue(ds)
  {
    ParseIntDigits(ds);
    assert ("=" + ds)[0] == '=' && ("=" + ds)[1..] == ds;
  }

  lemma PriorityExact(ds: string, p: int)
    requires ds != [] && AllDigits(ds)
    ensures PriorityIncludes(ds, p) <==> p == DigitsValue(ds)
  {
    ParseIntDigits(ds);
    assert IsDigit(ds[0]);
    assert PriorityOperator(ds) == (Equal, ds);
  }

  // ------------------------------------------------------------- size filter

  /** A size name from a list: a full word or a code, in any letter case, as its code; other names are dropped. */
  function ListedSize(name: string): (r: Option<string>)
    ensures r.Some? ==> TaskModel.SizeCode(r.value)
  {
    var up := Upper(name);
    match TaskModel.SizeWord(up)
    case Some(code) => Some(code)
    case None => if TaskModel.SizeCode(up) then Some(up) else None
  }

  /** The codes a list of size names stands for, in order. */
  function NormalizedSizes(names: seq<string>): (r: seq<string>)
    ensures forall i | 0 <= i < |r| :: TaskModel.SizeCode(r[i])
    decreases |names|
  {
    if names == [] then []
    else
      var code := ListedSize(names[|names| - 1]);
      NormalizedSizes(names[..|names| - 1]) + (if code.Some? then [code.value] else [])
  }

  /** A single size: a full word is mapped first, and the result must be a code. */
  function SingleSize(name: string): (r: Option<string>)
    ensures r.Some? ==> TaskModel.SizeCode(r.value)
  {
    var up := Upper(name);
    var mapped := match TaskModel.SizeWord(up) case Some(code) => code case None => up;
    if TaskModel.SizeCode(mapped) then Some(mapped) else None
  }

  /** A single size and a one-name list choose the same code. */
  lemma SingleSizeIsListed(name: string)
    ensures SingleSize(name) == ListedSize(name)
  {
  }

  function SizeKeeps(f: FilterValue): Listed -> bool {
    match f
    case Items(names) => t => SizeOf(t) in NormalizedSizes(names)
    case Single(name) => t => SingleSize(name).Some? && SizeOf(t) == SingleSize(name).value
  }

  method NormalizeSizes(names: seq<string>) returns (codes: seq<string>)
    ensures codes == NormalizedSizes(names)
  {
    codes := [];
    for i := 0 to |names|
      invariant codes == NormalizedSizes(names[..i])
    {
      assert names[..i + 1][..i] == names[..i];
      var code := ListedSize(names[i]);
      if code.Some? {
        codes := codes + [code.value];
      }
    }
    assert names[..|names|] == names;
  }

  method FilterBySize(rows: seq<Listed>, f: FilterValue) returns (kept: seq<Listed>)
    ensures kept == Keep(rows, SizeKeeps(f))
  {
    kept := [];
    var codes: seq<string> := [];
    var single: Option<string> := None;
    if f.Items? {
      codes := NormalizeSizes(f.items);
    } else {
      single := SingleSize(f.s);
      if single.None? {
        KeepNothing(rows, SizeKeeps(f));
        return;
      }
    }
    for i := 0 to |rows|
      invariant kept == Keep(rows[..i], SizeKeeps(f))
    {
      assert rows[..i + 1][..i] == rows[..i];
      var taskSize := rows[i].size.GetOr("U");
      if (f.Items? && taskSize in codes) || (f.Single? && taskSize == single.value) {
        kept := kept + [rows[i]];
      }
    }
    assert rows[..|rows|] == rows;
  }

  /** A single size that is neither a code nor a full word lets no row through. */
  lemma SizeUnrecognised(rows: seq<Listed>, name: string)
    requires SingleSize(name).None?
    ensures Keep(rows, SizeKeeps(Single(name))) == []
  {
    KeepNothing(rows, SizeKeeps(Single(name)));
  }

  /** A row without a size is kept exactly when the filter asks for undefined. */
  lemma SizeMissingIsUndefined(t: Listed, f: FilterValue)
    requires t.size.None?
    ensures SizeKeeps(f)(t) <==> (match f
      case Items(names) => "U" in NormalizedSizes(names)
      case Single(name) => SingleSize(name) == Some("U"))
  {
  }

  // ------------------------------------------------------------- post-query filters

  predicate Given(f: Filters, key: string) {
    key in f && (match f[key] case Single(s) => s != "" case Items(l) => l != [])
  }

  /** The rows that survive the text or note search, then the priority filter, then the size filter. */
  function AfterFilters(rows: seq<Listed>, f: Filters): seq<Listed>
    requires WellFormed(f)
  {
    var searched :=
      if Given(f, "text") then TextMatches(rows, f["text"].s)
      else if Given(f, "note") then Keep(rows, NoteHas(Lower(f["note"].s)))
      else rows;
    var prioritised := if Given(f, "priority") then Keep(searched, PriorityKeeps(f["priority"].s)) else searched;
    if Given(f, "size") then Keep(prioritised, SizeKeeps(f["size"])) else prioritised
  }

  /** The filtering part of `refresh_tasks` that runs on the rows the query returned. */
  method FilterRows(rows: seq<Listed>, f: Filters) returns (result: seq<Listed>)
    requires WellFormed(f)
    ensures result == AfterFilters(rows, f)
  {
    result := rows;
    if Given(f, "text") {
      result := SearchByText(result, f["text"].s);
    } else if Given(f, "note") {
      result := SearchByNote(result, f["note"].s);
    }
    if Given(f, "priority") {
      result := FilterByPriority(result, f["priority"].s);
    }
    if Given(f, "size") {
      result := FilterBySize(result, f["size"]);
    }
  }

  /** Filtering only ever drops rows. */
  lemma AfterFiltersSubset(rows: seq<Listed>, f: Filters, t: Listed)
    requires WellFormed(f) && t in AfterFilters(rows, f)
    ensures t in rows
  {
    var searched :=
      if Given(f, "text") then TextMatches(rows, f["text"].s)
      else if Given(f, "note") then Keep(rows, NoteHas(Lower(f["note"].s)))
      else rows;
    var prioritised := if Given(f, "priority") then Keep(searched, PriorityKeeps(f["priority"].s)) else searched;
    if Given(f, "size") {
      KeepMembers(prioritised, SizeKeeps(f["size"]), t);
    }
    if Given(f, "priority") {
      KeepMembers(searched, PriorityKeeps(f["priority"].s), t);
    }
    if Given(f, "text") {
      TextMatchesMembers(rows, f["text"].s, t);
    } else if Given(f, "note") {
      KeepMembers(rows, NoteHas(Lower(f["note"].s)), t);
    }
  }

  // ------------------------------------------------------------- status filters

  const ActiveStatuses: set<string> := {"new", "in-progress"}
  const InactiveStatuses: set<string> := {"done", "cancel", "post"}

  /** The three filter modes of the "All" button, in the order it cycles through them; anything else goes to `active`. */
  function NextMode(mode: string): (r: string)
    ensures r == "active" || r == "inactive" || r == "all"
  {
    if mode == "active" then "inactive" else if mode == "inactive" then "all" else "active"
  }

  /** Three presses bring a mode back to itself. */
  lemma ModeCycle(mode: string)
    requires mode == "active" || mode == "inactive" || mode == "all"
    ensures NextMode(NextMode(NextMode(mode))) == mode
    ensures NextMode(mode) != mode
  {
  }

  /**
   * The statuses the query admits: the search's status list wins, then the
   * individual toggles, then the mode; `None` is no status condition.
   */
  function StatusScope(search: Filters, toggled: set<string>, mode: string): (r: Option<set<string>>)
    requires WellFormed(search)
    ensures Given(search, "status") ==> r == Some(set s | s in search["status"].items)
    ensures !Given(search, "status") && toggled != {} ==> r == Some(toggled)
    ensures !Given(search, "status") && toggled == {} ==>
      r == (if mode == "active" then Some(ActiveStatuses) else if mode == "inactive" then Some(InactiveStatuses) else None)
  {
    if Given(search, "status") then Some(set s | s in search["status"].items)
    else if toggled != {} then Some(toggled)
    else if mode == "active" then Some(ActiveStatuses)
    else if mode == "inactive" then Some(InactiveStatuses)
    else None
  }

  /** Each of the five statuses is admitted by exactly one of the active and inactive modes. */
  lemma ModesPartition(status: string)
    requires TaskModel.ValidStatus(status)
    ensures (status in ActiveStatuses) != (status in InactiveStatuses)
  {
  }

  /** The part of the app's state the status filters read and the buttons change. */
  class FilterState {
    var allFilterMode: string
    var activeStatusFilters: set<string>
    var searchFilter: Filters

    predicate Valid()
      reads this
    {
      WellFormed(searchFilter)
    }

    constructor ()
      ensures Valid()
      ensures allFilterMode == "active" && activeStatusFilters == {} && searchFilter == map[]
    {
      allFilterMode := "active";
      activeStatusFilters := {};
      searchFilter := map[];
    }

    function Scope(): Option<set<string>>
      requires Valid()
      reads this
    {
      StatusScope(searchFilter, activeStatusFilters, allFilterMode)
    }

    /** The "All" button: the next mode, and the individual toggles cleared. */
    method PressAll()
      requires Valid()
      modifies this
      ensures Valid()
      ensures allFilterMode == NextMode(old(allFilterMode)) && activeStatusFilters == {}
      ensures searchFilter == old(searchFilter)
      ensures !Given(searchFilter, "status") ==>
        Scope() == (if allFilterMode == "active" then Some(ActiveStatuses)
          else if allFilterMode == "inactive" then Some(InactiveStatuses) else None)
    {
      allFilterMode := NextMode(allFilterMode);
      activeStatusFilters := {};
    }

    /** An individual status button toggles that status in or out of the filter. */
    method PressStatus(status: string)
      requires Valid()
      modifies this
      ensures Valid()
      ensures activeStatusFilters ==
        if status in old(activeStatusFilters) then old(activeStatusFilters) - {status}
        else old(activeStatusFilters) + {status}
      ensures allFilterMode == old(allFilterMode) && searchFilter == old(searchFilter)
    {
      if status in activeStatusFilters {
        activeStatusFilters := activeStatusFilters - {status};
      } else {
        activeStatusFilters := activeStatusFilters + {status};
      }
    }

    /** `apply_search_filter`: a submitted search with statuses turns those statuses into the toggles. */
    method ApplySearchFilter(filters: Filters, live: bool)
      requires WellFormed(filters)
      modifies this
      ensures Valid()
      ensures searchFilter == filters && allFilterMode == old(allFilterMode)
      ensures activeStatusFilters ==
        if !live && Given(filters, "status") then set s | s in filters["status"].items else old(activeStatusFilters)
    {
      searchFilter := filters;
      if !live && Given(filters, "status") {
        activeStatusFilters := set s | s in filters["status"].items;
      }
    }

    method ClearSearchFilter()
      requires Valid()
      modifies this
      ensures Valid()
      ensures searchFilter == map[]
      ensures allFilterMode == old(allFilterMode) && activeStatusFilters == old(activeStatusFilters)
    {
      searchFilter := map[];
    }
  }

  // ------------------------------------------------------------- status cycle

  const StatusCycle: seq<string> := ["new", "in-progress", "done", "post", "cancel"]

  /** The status after `status` in the cycle; a status outside it starts again at `new`. */
  function NextStatus(status: string): string {
    if status == "new" then "in-progress"
    else if status == "in-progress" then "done"
    else if status == "done" then "post"
    else if status == "post" then "cancel"
    else "new"
  }

  /** Each status of the cycle is followed by the next one, the last by the first. */
  lemma NextStatusFollows(i: nat)
    requires i < |StatusCycle|
    ensures NextStatus(StatusCycle[i]) == StatusCycle[(i + 1) % |StatusCycle|]
  {
  }

  /** The next status is always one of the cycle, and `new` for a status outside it. */
  lemma NextStatusInCycle(status: string)
    ensures NextStatus(status) in StatusCycle
    ensures status !in StatusCycle ==> NextStatus(status) == "new"
  {
  }

  /** Five steps bring every status of the cycle back to itself. */
  lemma StatusCycleCloses(status: string)
    requires status in StatusCycle
    ensures NextStatus(NextStatus(NextStatus(NextStatus(NextStatus(status))))) == status
    ensures NextStatus(status) != status
  {
  }

  predicate Blocked(t: Listed) {
    FirstDepends(NotesOf(t)).Some?
  }

  /** A blocked task is left as it is; any other moves to the next status. */
  function Cycled(t: Listed): Listed {
    if Blocked(t) then t else t.(status := NextStatus(t.status))
  }

  /** The `(old, new)` status pairs of the tasks that changed, in order. */
  function Changes(tasks: seq<Listed>): (r: seq<(string, string)>)
    ensures |r| <= |tasks|
    decreases |tasks|
  {
    if tasks == [] then []
    else
      var t := tasks[|tasks| - 1];
      Changes(tasks[..|tasks| - 1]) + (if Blocked(t) then [] else [(t.status, NextStatus(t.status))])
  }

  /** The ids of the blocked tasks reported as not changeable, in order. */
  function Skipped(tasks: seq<Listed>): (r: seq<int>)
    ensures |r| + |Changes(tasks)| == |tasks|
    decreases |tasks|
  {
    if tasks == [] then []
    else
      var t := tasks[|tasks| - 1];
      Skipped(tasks[..|tasks| - 1]) + (if Blocked(t) then [t.id] else [])
  }

  /** The rows `_record_task_history` copies into the history table: each changed task after its update, in order. */
  function Snapshots(tasks: seq<Listed>): (r: seq<Listed>)
    ensures |r| == |Changes(tasks)|
    decreases |tasks|
  {
    if tasks == [] then []
    else
      var t := tasks[|tasks| - 1];
      Snapshots(tasks[..|tasks| - 1]) + (if Blocked(t) then [] else [Cycled(t)])
  }

  /** Snapshot `k` is the changed task whose status change is change `k`, carrying its new status. */
  lemma {:induction false} SnapshotsAt(tasks: seq<Listed>, k: nat)
    requires k < |Changes(tasks)|
    ensures Snapshots(tasks)[k].status == Changes(tasks)[k].1
    ensures Snapshots(tasks)[k].(status := Changes(tasks)[k].0) in tasks
    decreases |tasks|
  {
    var init := tasks[..|tasks| - 1];
    if k < |Changes(init)| {
      SnapshotsAt(init, k);
      assert Snapshots(tasks)[k] == Snapshots(init)[k];
      assert Changes(tasks)[k] == Changes(init)[k];
      assert forall x | x in init :: x in tasks;
    } else {
      assert tasks[|tasks| - 1] in tasks;
    }
  }

  /** Every task cycled, in order. */
  function CycledAll(tasks: seq<Listed>): (r: seq<Listed>)
    ensures |r| == |tasks|
    decreases |tasks|
  {
    if tasks == [] then [] else CycledAll(tasks[..|tasks| - 1]) + [Cycled(tasks[|tasks| - 1])]
  }

  lemma {:induction false} CycledAllAt(tasks: seq<Listed>, k: nat)
    requires k < |tasks|
    ensures CycledAll(tasks)[k] == Cycled(tasks[k])
    ensures Blocked(tasks[k]) ==> CycledAll(tasks)[k] == tasks[k]
    decreases |tasks|
  {
    if k < |tasks| - 1 {
      CycledAllAt(tasks[..|tasks| - 1], k);
    }
  }

  lemma CycleStep(tasks: seq<Listed>, i: nat)
    requires i < |tasks|
    ensures CycledAll(tasks[..i + 1]) == CycledAll(tasks[..i]) + [Cycled(tasks[i])]
    ensures Changes(tasks[..i + 1]) ==
              Changes(tasks[..i]) + (if Blocked(tasks[i]) then [] else [(tasks[i].status, NextStatus(tasks[i].status))])
    ensures Skipped(tasks[..i + 1]) == Skipped(tasks[..i]) + (if Blocked(tasks[i]) then [tasks[i].id] else [])
    ensures Snapshots(tasks[..i + 1]) == Snapshots(tasks[..i]) + (if Blocked(tasks[i]) then [] else [Cycled(tasks[i])])
  {
    assert tasks[..i + 1][..i] == tasks[..i];
  }

  /**
   * `action_cycle_status` over the tasks to cycle: each moves on, blocked ones
   * are skipped. When the history table exists, each changed task is copied
   * into it after its update; the insert commits, and the copy is committed
   * once more after it. One commit closes the action. With no task to cycle the action returns before any of this.
   */
  method CycleStatuses(tasks: array<Listed>, hasHistory: bool)
    returns (changes: seq<(string, string)>, skipped: seq<int>, history: seq<Listed>, commits: nat)
    modifies tasks
    ensures tasks[..] == CycledAll(old(tasks[..]))
    ensures changes == Changes(old(tasks[..])) && skipped == Skipped(old(tasks[..]))
    ensures history == (if hasHistory then Snapshots(old(tasks[..])) else [])
    ensures commits == if tasks.Length == 0 then 0 else 2 * |history| + 1
  {
    ghost var before := tasks[..];
    changes, skipped, history, commits := [], [], [], 0;
    if tasks.Length == 0 {
      return;
    }
    for i := 0 to tasks.Length
      invariant tasks[..i] == CycledAll(before[..i])
      invariant forall j | i <= j < tasks.Length :: tasks[j] == before[j]
      invariant changes == Changes(before[..i]) && skipped == Skipped(before[..i])
      invariant history == (if hasHistory then Snapshots(before[..i]) else []) && commits == 2 * |history|
    {
      CycleStep(before, i);
      ghost var done := tasks[..i];
      var t := tasks[i];
      var dependsOn, underIds := ParseDependencies(t.notes.GetOr([]));
      if dependsOn.Some? {
        skipped := skipped + [t.id];
      } else {
        var next := NextStatus(t.status);
        tasks[i] := t.(status := next);
        changes := changes + [(t.status, next)];
        if hasHistory {
          history := history + [tasks[i]];
          commits := commits + 2;
        }
      }
      assert tasks[i] == Cycled(before[i]);
      assert tasks[..i] == done;
      assert tasks[..i + 1] == done + [Cycled(before[i])];
    }
    commits := commits + 1;
    assert before[..tasks.Length] == before;
    assert tasks[..tasks.Length] == tasks[..];
  }

  /** The notification after a cycle. */
  function CycleMessage(changes: seq<(string, string)>): (r: Option<string>)
    ensures r.None? <==> changes == []
    ensures |changes| == 1 ==> r == Some("Status changed: " + changes[0].0 + " → " + changes[0].1)
  {
    if changes == [] then None
    else if |changes| == 1 then Some("Status changed: " + changes[0].0 + " → " + changes[0].1)
    else Some("Status cycled for " + NatToString(|changes|) + " task(s)")
  }

  // ------------------------------------------------------------- reminder repair on refresh

  /** What refreshing one row does: the row after its updates, the reminder column text and the commits made. */
  datatype Repair = Repaired(task: Listed, display: string, commits: nat) | RepairCrash

  /**
   * A reminder text without a timestamp is parsed again (`clock` is the
   * parser's reading of the time) and the timestamp stored, keeping the
   * old repeat interval when the parse has none; a timestamp before `now`
   * clears the reminder; a later one shows the countdown, marked ` (r)`
   * when the reminder repeats. OverflowError from the parser ends the
   * refresh. The countdown reuses `clock`; the program reads the clock once
   * more for it.
   */
  function RepairRow(t: Listed, now: Instant, clock: Instant, parse: Parser): (r: Repair)
  {
    var reparsed: Option<Listed> :=
      if Filled(t.reminder) && t.reminderAt.None? then
        match parse(t.reminder.value, clock)
        case Parsed(at, repeat) =>
          Some(t.(reminderAt := Some(at), reminderRepeat := if Filled(repeat) then repeat else t.reminderRepeat))
        case Failed(_) => Some(t)
        case Overflow => None
      else Some(t);
    match reparsed
    case None => RepairCrash
    case Some(u) =>
      var written: nat := if u != t then 1 else 0;
      match u.reminderAt
      case None => Repaired(u, "", written)
      case Some(at) =>
        if at < now then Repaired(u.(reminder := None, reminderAt := None), "", written + 1)
        else Repaired(u, GetTimeUntil(at, clock) + (if Filled(u.reminderRepeat) then " (r)" else ""), written)
  }

  /** The repair touches only the reminder columns. */
  lemma RepairKeepsOthers(t: Listed, now: Instant, clock: Instant, parse: Parser)
    requires RepairRow(t, now, clock, parse).Repaired?
    ensures var u := RepairRow(t, now, clock, parse).task;
      u.id == t.id && u.name == t.name && u.status == t.status && u.notes == t.notes
      && u.priority == t.priority && u.size == t.size
  {
  }

  /** A timestamp in the past is cleared together with the reminder text; the repeat interval stays. */
  lemma RepairClearsPast(t: Listed, now: Instant, clock: Instant, parse: Parser)
    requires t.reminderAt.Some? && t.reminderAt.value < now
    ensures RepairRow(t, now, clock, parse) == Repaired(t.(reminder := None, reminderAt := None), "", 1)
  {
  }

  /** A future timestamp is kept and shown as a countdown. */
  lemma RepairShowsFuture(t: Listed, now: Instant, clock: Instant, parse: Parser)
    requires t.reminderAt.Some? && t.reminderAt.value >= now
    ensures RepairRow(t, now, clock, parse) ==
      Repaired(t, GetTimeUntil(t.reminderAt.value, clock) + (if Filled(t.reminderRepeat) then " (r)" else ""), 0)
  {
  }

  /** A reminder text that parses again gets its timestamp back, and keeps its interval when the text has none. */
  lemma RepairReparses(t: Listed, now: Instant, clock: Instant, parse: Parser)
    requires Filled(t.reminder) && t.reminderAt.None?
    requires parse(t.reminder.value, clock).Parsed?
    ensures var p := parse(t.reminder.value, clock);
      var r := RepairRow(t, now, clock, parse);
      && r.Repaired? && r.commits >= 1
      && (p.at >= now ==> r.task.reminderAt == Some(p.at) && r.task.reminder == t.reminder)
      && (p.at < now ==> r.task.reminderAt.None? && r.task.reminder.None?)
      && r.task.reminderRepeat == (if Filled(p.repeat) then p.repeat else t.reminderRepeat)
  {
  }

  datatype Refresh = Refresh(rows: seq<Listed>, displays: seq<string>, commits: nat, crashed: bool)

  /** Refreshing the first `n` rows, each with its own clock reading; a crash stops at that row. */
  function RefreshUpTo(rows: seq<Listed>, now: Instant, clocks: seq<Instant>, parse: Parser, n: nat): (r: Refresh)
    requires n <= |rows| && |clocks| == |rows|
    ensures |r.rows| == |rows|
    ensures r.rows[n..] == rows[n..]
    ensures !r.crashed ==> |r.displays| == n
    decreases n
  {
    if n == 0 then Refresh(rows, [], 0, false)
    else
      var s := RefreshUpTo(rows, now, clocks, parse, n - 1);
      if s.crashed then s
      else match RepairRow(rows[n - 1], now, clocks[n - 1], parse)
        case RepairCrash => s.(crashed := true)
        case Repaired(u, display, c) =>
          assert s.rows[n - 1] == rows[n - 1] by { assert s.rows[n - 1..][0] == rows[n - 1..][0]; }
          Refresh(s.rows[n - 1 := u], s.displays + [display], s.commits + c, false)
  }

  /** The reminder handling inside `refresh_tasks`, over the listed rows, updated in place. */
  method RefreshReminders(rows: array<Listed>, now: Instant, clocks: seq<Instant>, parse: Parser)
    returns (displays: seq<string>, commits: nat, crashed: bool)
    requires |clocks| == rows.Length
    modifies rows
    ensures var r := RefreshUpTo(old(rows[..]), now, clocks, parse, rows.Length);
      rows[..] == r.rows && displays == r.displays && commits == r.commits && crashed == r.crashed
  {
    ghost var before := rows[..];
    displays, commits, crashed := [], 0, false;
    var i := 0;
    while i < rows.Length
      invariant 0 <= i <= rows.Length
      invariant var r := RefreshUpTo(before, now, clocks, parse, i);
        rows[..] == r.rows && displays == r.displays && commits == r.commits && !r.crashed && !crashed
    {
      assert rows[i] == before[i] by {
        assert rows[..][i..][0] == before[i..][0];
      }
      var repair := RepairRow(rows[i], now, clocks[i], parse);
      if repair.RepairCrash? {
        crashed := true;
        CrashStays(before, now, clocks, parse, i + 1, rows.Length);
        break;
      }
      rows[i] := repair.task;
      displays := displays + [repair.display];
      commits := commits + repair.commits;
      i := i + 1;
    }
  }

  lemma {:induction false} CrashStays(rows: seq<Listed>, now: Instant, clocks: seq<Instant>, parse: Parser, k: nat, n: nat)
    requires k <= n <= |rows| && |clocks| == |rows|
    requires RefreshUpTo(rows, now, clocks, parse, k).crashed
    ensures RefreshUpTo(rows, now, clocks, parse, n) == RefreshUpTo(rows, now, clocks, parse, k)
    decreases n - k
  {
    if k < n {
      CrashStays(rows, now, clocks, parse, k, n - 1);
    }
  }
}
